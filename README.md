# CZEditor core, modelled in Dafny

CZEditor is a timeline compositor. Keyframes sit on a timeline, ordered by
frame. Each keyframe has a source, a chain of actions that rewrite the active
state, and a chain of effects that composite images and process sound.

The window plays the timeline back at 60 frames per second. It mixes
512-sample audio blocks at 48000 Hz. It notifies operators when the playhead
jumps. Parameters live in small property holders. Video files are read
through a reader that decides between a container seek and forward decoding.

This project models that core and proves what it promises:

- `sorting.dfy` (module `Sorting`): Python's stable `sorted(key=...)`, proved
  sorted, a permutation, stable, and unique with those three properties.
- `model.dfy` (module `Model`): shared values.
  - operators, with their `hasattr` capabilities as flags;
  - the keyframe value and two-channel sample rows;
  - the fixed rates;
  - Python list indexing, `list.index` and `list.remove`;
  - the frame/sample conversions.
- `keyframelist.dfy` (module `Timeline`): the class `Keyframelist` of
  keyframes.py. Its invariant is "a clear `needssorting` flag means the list
  is sorted by frame", and every method preserves it.
- `engine.dfy` (module `Engine`): the per-frame functions of
  czeditor/czeditor.py:
  - `stateprocessor`, `frameprocessor` and `getsound`;
  - for `getsound`, a reference definition of the mix and the proof that
    `getsound` computes it.
- `compositing.dfy` (module `Compositing`): the keyframe object of
  keyframes.py.
  - its state fold and its sound;
  - the control and caching decisions of `composite`: what is compiled,
    allocated, deleted and drawn;
  - the GL driver reduced to a log of those calls;
  - the shader list split into render passes, with its shape proved.
- `window.dfy` (module `Playback`): the playback parts of `Window`.
  - `seek` and `threadseek`;
  - the audio device callback with its 1024-sample history array;
  - `getframesound` for export;
  - the space-bar toggle;
  - the event registry.
- `properties.dfy` (module `Properties`): the parameter holders.
  `SizeProperty` keeps size = base × ratio, over exact reals.
- `avreader.dfy` (module `AvReader`): the bookkeeping of the video reader and
  the block loop of the audio writer, with the decoder abstract.

Calls into code outside this core are function parameters or constant fields:

- a keyframe's `actOnKeyframes` (given the playhead frame the window holds), `layer` and `getSound`;
- the operators' `image`, `composite`, `state`, `sound`, `soundeffect` and
  `seek`;
- the decoder's output;
- the audio sample callback;
- an animation timeline's `getValueAt`.

Wall-clock readings (`perf_counter()`) are passed in as `now`. The worker pool
is a queue of submitted seeks.

## Model

| member | source | states |
|---|---|---|
| Sorting.StableSort | czeditor/czeditor.py:38 | The result is sorted by the key, is a permutation of the input, and keeps equal-key elements in input order. |
| Sorting.SortSortedIsIdentity | keyframes.py:249-253 | Sorting an already sorted list changes nothing, so a second ordered read with no mutation in between reorders nothing. |
| Sorting.SortedStableUnique | czeditor/czeditor.py:38 | Two sorted, equal-length lists that are stable with respect to each other are equal: a stable sort has exactly one answer. |
| Model.FrameToSample | czeditor/czeditor.py:458 | The sample index of a frame is frame × 48000 / 60. |
| Model.SampleToFrame | czeditor/czeditor.py:394 | Frame numbers bracket the sample: the result truncates toward zero, for negative samples too. |
| Model.FrameSampleRoundTrip | czeditor/czeditor.py:394 | With the exact conversions of this model, converting a frame to samples and back gives the same frame. |
| Model.IndexOf | keyframes.py:227 | The first position holding the element, with no earlier occurrence; -1 (ValueError) exactly when absent. |
| Model.RemoveFirst | czeditor/czeditor.py:355 | Drops exactly the first occurrence: one element shorter, the multiset minus that element. |
| Model.ResolveIndex | keyframes.py:245-246 | A Python index in `-n..n-1` resolves to a valid position, counting negative indices from the end; anything else is IndexError (-1). |
| Timeline.Keyframelist.Locate | keyframes.py:225-229 | A keyframe reference resolves to its first position, with no earlier occurrence, or fails exactly when it is not in the list. An index reference in `-n..n-1` resolves to itself, or to itself + n when negative; any other index fails. |
| Timeline.Keyframelist.constructor | keyframes.py:209-212 | An empty list with a clear flag, which is sorted. |
| Timeline.Keyframelist.Add | keyframes.py:213-215 | Appends the keyframe and sets the flag; the invariant holds. |
| Timeline.Keyframelist.Append | keyframes.py:216-218 | Appends the keyframe and sets the flag; the invariant holds. |
| Timeline.Keyframelist.Change | keyframes.py:225-232 | Replaces only the referenced element in the current internal order and sets the flag; an unknown reference or a bad index changes nothing. |
| Timeline.Keyframelist.Remove | keyframes.py:239-244 | Deletes only the referenced element and leaves the flag alone, yet the invariant holds: deleting keeps a sorted list sorted. |
| Timeline.Keyframelist.Pop | keyframes.py:245-246 | Deletes the element at a Python index, negative ones included, and keeps the flag and the invariant. |
| Timeline.Keyframelist.Len | keyframes.py:247-248 | Read without sorting, it is still the length of the ordered view. The indices that `change`, `remove`, `pop` and `get` accept are exactly -len to len - 1. |
| Timeline.Keyframelist.SortIfNeeded | keyframes.py:259-262 | Afterwards the list is the stable sort by frame of the list before, and the flag is clear. With the flag already clear, nothing moves. |
| Timeline.Keyframelist.Get | keyframes.py:249-253 | Sorts first when flagged, even for a bad index, then indexes Python-style; None exactly for an out-of-range index (IndexError). |
| Timeline.Keyframelist.Str | keyframes.py:254-258 | Sorts when flagged, then shows the whole ordered list. |
| Timeline.Keyframelist.SetItem | keyframes.py:264-267 | Replaces the element at a Python index in the internal order and sets the flag; a bad index changes nothing. |
| Timeline.Keyframelist.SetFrame | keyframes.py:274-281 | Re-times only the referenced keyframe, keeping its other fields, and sets the flag. |
| Timeline.Keyframelist.IsInRange | keyframes.py:282-283 | True exactly for a resolvable index that is positive: index 0 and negative indices are rejected. |
| Timeline.Keyframelist.GetSafe | keyframes.py:284-288 | The element at `i` exactly when `IsInRange(i)` holds, without sorting; None otherwise. |
| Timeline.Keyframelist.IsIn | keyframes.py:289-290 | True exactly for the keyframes that `change`, `remove` and `setframe` can locate, and exactly for those in the ordered view, whether or not a sort is pending. |
| Timeline.Keyframelist.Create | keyframes.py:291-305 | Builds a keyframe at the frame with the default source and no actions or effects, appends it, and returns it. |
| Timeline.DeleteKeepsSorted | keyframes.py:239-246 | Deleting any element from a list sorted by frame leaves it sorted. |
| Timeline.OrderedViewIndependentOfInsertionOrder | keyframes.py:249-253 | Two insertion orders with the same keyframes, and the same order among equal frames, give the same ordered view. |
| Engine.ActivePrefix | czeditor/czeditor.py:34-36 | The keyframes visited before the `break`: the longest prefix with frames at most the target. The next keyframe is past the target. |
| Engine.StateProcessor | czeditor/czeditor.py:32-39 | The result is sorted by layer, and it is a stable permutation of the actions folded over the active prefix in list order, each action seeing the playhead at the target frame. An empty list gives an empty state. |
| Engine.AccumulateIsFoldOfPrefix | czeditor/czeditor.py:34-37 | The walk with its `break` applies exactly the active prefix, in order. |
| Engine.NothingAfterStopIsApplied | czeditor/czeditor.py:35-36 | Keyframes after the first one past the target are never applied, even ones with smaller frames. |
| Engine.SortedPrefixIsAtOrBefore | czeditor/czeditor.py:34-37 | On a frame-sorted list, a keyframe is applied exactly when its frame is at most the target. |
| Engine.ExactFrameIncluded | czeditor/czeditor.py:35 | On a frame-sorted list, a keyframe at exactly the target frame is applied, and it is not applied at the frame before. |
| Engine.PrefixMonotone | czeditor/czeditor.py:34-37 | A later target never applies fewer keyframes. |
| Engine.FrameProcessor | czeditor/czeditor.py:47-53 | The prefix before the first keyframe at or after the target, all strictly before it. None exactly when no keyframe reaches the target, the empty list included. |
| Engine.Padded | czeditor/czeditor.py:70-71 | Zero-padding to 512 rows keeps each row of the contribution and puts zero rows after it. |
| Engine.MixInto | czeditor/czeditor.py:67-72 | A mixed block, when there is one, has 512 rows. |
| Engine.GetSound | czeditor/czeditor.py:64-73 | A mixed block, when there is one, has 512 rows. |
| Engine.MixIntoSpec | czeditor/czeditor.py:67-72 | Mixing succeeds exactly when every contribution is 0-d or at most 512 rows. Each row is then the start buffer plus the reference sum. |
| Engine.GetSoundIsSum | czeditor/czeditor.py:64-73 | `getsound` yields a 512×2 block exactly when every contribution fits. Each row is the sum, not the average, of what each contribution puts in that row. 0-d results add nothing; rows past a contribution's length get nothing from it. |
| Engine.SilentWhenNothingContributes | czeditor/czeditor.py:66-69 | With no keyframes, or only 0-d results, every row is zero. |
| Engine.TwoConstantsSum | czeditor/czeditor.py:72 | Two full-length constant contributions mix to twice the constant. |
| Engine.ShortContributionPadsWithZero | czeditor/czeditor.py:70-71 | A contribution shorter than the block leaves the later rows zero. |
| Engine.SumAtConcat | czeditor/czeditor.py:66-72 | The reference mix of a state split in two is the sum of the mixes of the parts. |
| Engine.MixOrderIndependent | czeditor/czeditor.py:64-73 | Swapping two parts of the state gives the same block, or the same error: the mix does not depend on the layer order `stateprocessor` sorts into. |
| Compositing.FoldStateConcat | keyframes.py:50-53 | The state operators act strictly in list order: folding a split chain is folding the second part over the first part's result. |
| Compositing.WithCapability | keyframes.py:64-65 | Exactly the operators having the capability are kept: every kept one has it, and every one having it is kept. |
| Compositing.WithCapabilityConcat | keyframes.py:64-65 | Filtering a split chain filters each part, so the kept operators stay in chain order. |
| Compositing.FoldCompositeSkips | keyframes.py:64-66 | Operators without `composite` are skipped: the compositing fold is the plain in-order application of the capable operators. |
| Compositing.FoldSoundEffectsConcat | keyframes.py:192-194 | The sound effects act strictly in chain order: folding a split chain is folding the second part over the first part's result. |
| Compositing.FoldSoundEffectsSkips | keyframes.py:192-194 | Operators without `soundeffect` are skipped: the fold is the plain in-order application of the capable operators. |
| Compositing.NoEffectsKeepSound | keyframes.py:192-194 | With no `soundeffect` operator, the audio passes through unchanged. |
| Compositing.NoEffectsKeepSoundAt | keyframes.py:192-195 | The same passthrough, as an implication usable inside `Sound`. |
| Compositing.ChunkFlatten | keyframes.py:91-109 | The program groups concatenate back to the pending group plus the remaining fragments: no fragment is lost, duplicated or reordered. |
| Compositing.ChunkLast | keyframes.py:93-108 | The last program group is final and non-empty. |
| Compositing.ChunkInner | keyframes.py:93-101 | Every program group but the last is intermediate and ends at a flagged fragment. |
| Compositing.ChunkCount | keyframes.py:93-109 | One group per flagged fragment before the last position, plus the final one. |
| Compositing.Partition | keyframes.py:89-109 | For a non-empty shader list, the programs concatenate back to the list, and only the last is final. Every other program ends at a pass flag. The count is 1 + the flags before the last fragment, so a flag on the last fragment opens no pass. |
| Compositing.IntermediateDraws | keyframes.py:157-163 | One 6-vertex quad into the keyframe's framebuffer per program, in order. |
| Compositing.GlContext.constructor | keyframes.py:114 | No GL name has been handed out yet. |
| Compositing.GlContext.Gen | keyframes.py:113-124 | A nonzero name not handed out before, so `if(self.fbo)` holds for it; afterwards exactly the earlier names and this one have been handed out. |
| Compositing.Keyframe.constructor | keyframes.py:34-46 | A keyframe with no cached shader list, texture or framebuffer. |
| Compositing.Keyframe.State | keyframes.py:50-53 | With no state operators the state passes through. Otherwise the last operator acts last, on what the others made of the state, each given the offset `playbackframe - frame`. |
| Compositing.Keyframe.Sound | keyframes.py:189-196 | Without a `sound` capability: 1024 zero rows at 48000 Hz. Otherwise the source's audio at offset `sample - int(frame/60*48000)`, passed through the operators having `soundeffect`, one after another in chain order, with the same offset; unchanged when there are none. |
| Compositing.Keyframe.Recompile | keyframes.py:89-109 | The loop compiles exactly the programs of `Partition(shader)`, in order, and records them. |
| Compositing.Keyframe.UpdatePrograms | keyframes.py:79-109 | Programs are recompiled exactly when the shader list differs from the remembered one. Afterwards the cache holds the list and its programs. |
| Compositing.Keyframe.UpdateTexture | keyframes.py:113-137 | The texture is created on first use with size (0, 0), as a name the context had not handed out before, and is kept from then on. Storage and a new framebuffer are allocated exactly when the image size differs from the recorded one, and the old framebuffer is deleted only when its name is nonzero. The new framebuffer is a freshly generated name, and every name issued before stays issued. The recorded size becomes the image size. |
| Compositing.Keyframe.DrawPasses | keyframes.py:144-184 | With two or more programs, every program but the last draws a quad into the framebuffer. Then the last program draws the geometry to the output. |
| Compositing.Keyframe.EnsureFbo | keyframes.py:75-76 | A framebuffer name is generated on first use only, and it is fresh; an existing one is kept. Names issued before stay issued. |
| Compositing.Keyframe.Render | keyframes.py:75-184 | For a non-empty shader list, programs are recompiled exactly on a changed list and storage is allocated exactly on a changed size. The texture, once created, is kept; a new texture or a framebuffer made for a new size is a fresh name. The draws are the intermediate passes into the framebuffer, then one final draw of the geometry to the output. |
| Compositing.Keyframe.Composite | keyframes.py:55-187 | With no image capability or an empty shader list, nothing changes. Otherwise programs are recompiled exactly on a changed shader list, and storage is reallocated exactly on a changed size. The texture, once created, is kept; a new texture or a framebuffer made for a new size is a fresh name. The draws are the intermediate passes into the framebuffer, then the final draw of the geometry to the output, and the cache invariant holds. |
| Playback.ChainSeekCalls | czeditor/czeditor.py:469-474 | Exactly the operators of the chain exposing `seek` are notified, each with the same frame offset. |
| Playback.ChainSeekCallsConcat | czeditor/czeditor.py:469-474 | The notifications for a split chain are those of each part, so operators are notified in chain order. |
| Playback.Attempted | czeditor/czeditor.py:464-478 | The calls a loop makes when it stops at the first exception: at most the planned ones. |
| Playback.AttemptedShape | czeditor/czeditor.py:464-478 | The calls made (operator notifications, event handlers) are a prefix of the planned ones, and no call but the last raised. They stop short only after a call that raised, and with no failure every call is made. |
| Playback.Window.constructor | czeditor/czeditor.py:293-346 | Frame 100, paused, not seeking, and an empty state. The 1024-sample history is zero, the sample cursor is at frame 100, and the only event is "FrameUpdate". |
| Playback.Window.RegisterEvent | czeditor/czeditor.py:348-349 | The event is (re)created with no handlers. |
| Playback.Window.ConnectToEvent | czeditor/czeditor.py:351-352 | The handler is appended to a known event; an unknown event (KeyError) changes nothing. |
| Playback.Window.DisconnectFromEvent | czeditor/czeditor.py:354-355 | Only the first occurrence of the handler is removed. An unknown event or handler changes nothing. |
| Playback.Window.TriggerEvent | czeditor/czeditor.py:357-359 | An unknown event is KeyError and calls nothing. Otherwise the handlers are called in connection order up to and including the first that raises, which is exactly `Attempted` of the handler list. It returns normally exactly when the event is known and no handler raises. |
| Playback.NoneFailsAll | czeditor/czeditor.py:357-359 | "No handler raises", as checked call by call, means that no element of the list raises. |
| Playback.Window.GetState | czeditor/czeditor.py:56-57 | Reading the list sorts it first when flagged, then `stateprocessor` runs on the ordered list. |
| Playback.Window.Seek | czeditor/czeditor.py:447-458 | When neither playing nor seeking, the seek is only submitted. Otherwise the cursor jumps synchronously: start frame, start time, playback frame and sample cursor. |
| Playback.Window.NotifyOperators | czeditor/czeditor.py:464-478 | The loop notifies in order and stops after the first call that raises. |
| Playback.Window.MoveTo | czeditor/czeditor.py:479-483 | The cursor moves to the frame and the state is recomputed there. |
| Playback.Window.ThreadSeek | czeditor/czeditor.py:460-484 | With `seeking` set, it notifies source, actions and effects of every keyframe in the old state with offset `frame - keyframe.frame`, and a failure aborts the rest. Then it moves the cursor, recomputes the state and clears `seeking`, whether or not a notification raised. |
| Playback.Window.ShiftIn | czeditor/czeditor.py:427-428 | The newer half of the history moves down and the block becomes the newer half. |
| Playback.Window.GetNextSoundChunk | czeditor/czeditor.py:422-445 | Paused or seeking: silence, a silent shift, and the sample cursor reset from the frame. Playing: the mix, shifted in only when sample 32 differs, or silence if mixing raises, and the sample cursor grows by exactly 512. The history stays 1024 long. |
| Playback.Window.ReloadAt | czeditor/czeditor.py:394-395 | The frame cursor is at the given frame, and the state is the one recomputed from the sorted keyframes there. |
| Playback.Window.MixFrameBlock | czeditor/czeditor.py:396-399 | The result is channel 0 of the mix at the sample cursor, and the cursor advances by one 512-sample block. If mixing raises, the cursor stays. |
| Playback.Window.GetFrameSound | czeditor/czeditor.py:393-399 | The frame comes from the sample cursor and the state is recomputed there. The result is channel 0 of the mix, and the sample cursor grows by exactly 512, unless mixing raises. |
| Playback.Window.KeyPress | czeditor/czeditor.py:412-420 | Space toggles playback and re-anchors the clock at the current frame; other keys change nothing here. |
| AvReader.FirstAtLeast | czeditor/avreader.py:36-39 | The first decoded frame reaching the target, all before it short of it; -1 when none reaches it. |
| AvReader.ForwardPick | czeditor/avreader.py:34-41 | The frame `seekForward` returns: the first reaching the target, else the last decoded; nothing exactly when nothing was decoded (unbound loop variable). |
| AvReader.ForwardRest | czeditor/avreader.py:36-39 | Decoding consumes a prefix: what remains is a suffix, strictly shorter when anything was decoded. |
| AvReader.ForwardPickReachesTarget | czeditor/avreader.py:36-39 | When any decoded frame reaches the target, the returned one does. |
| AvReader.Scan | czeditor/avreader.py:55-66 | The key-frame scan always decodes; `Choose` relies on this case split, and `ScanSeeksIff` says which way it goes. |
| AvReader.Choose | czeditor/avreader.py:50-66 | No decoding exactly at the current frame; a backward request always takes the full seek. |
| AvReader.ScanSeeksIff | czeditor/avreader.py:55-63 | A forward request seeks the container exactly when some key frame lies strictly between current and requested frame with no earlier key frame past the request. |
| AvReader.Overlay | czeditor/avreader.py:52-53 | Writing a frame keeps the buffer's size and every pixel's alpha. |
| AvReader.OverlayShowsFrame | czeditor/avreader.py:52-53 | Writing a frame makes the buffer show that frame's colours. |
| AvReader.SeekableVideoReader.constructor | czeditor/avreader.py:13-32 | At frame 0 with the key frame list recorded; the buffer is the first frame with alpha 255. |
| AvReader.SeekableVideoReader.SeekForward | czeditor/avreader.py:34-41 | Sets the current frame first, then returns `ForwardPick` of the decoder queue and leaves `ForwardRest` queued. |
| AvReader.SeekableVideoReader.Seek | czeditor/avreader.py:43-48 | At the current frame, the cached buffer with nothing decoded. Otherwise the container seeks and decoding goes forward from there. |
| AvReader.SeekableVideoReader.ScanKeyframes | czeditor/avreader.py:55-66 | The loop over the key frame list chooses the path `Scan` names. |
| AvReader.SeekableVideoReader.WriteRgb | czeditor/avreader.py:52-53 | Channels 0-2 of every pixel are overwritten with the frame and alpha is kept. |
| AvReader.SeekableVideoReader.Store | czeditor/avreader.py:52-66 | Writes the decoded frame, keeping alpha 255. Nothing decoded (UnboundLocalError) or a frame whose pixel count differs from the buffer's (ValueError) fails and leaves the buffer unchanged. |
| AvReader.SeekableVideoReader.Get | czeditor/avreader.py:50-67 | The current frame is the requested one afterwards. At the current frame nothing changes. Otherwise the frame picked along the chosen path is written into the buffer, with the alpha channel staying 255. |
| AvReader.BlockCount | czeditor/avreader.py:88-94 | The number of 512-sample blocks that just covers the count: ceil(samples/512), and 0 for a non-positive count. |
| AvReader.AudioWriter.constructor | czeditor/avreader.py:78-80 | The writer keeps the sample callback. |
| AvReader.AudioWriter.WriteAudio | czeditor/avreader.py:82-95 | The callback is called `BlockCount(samples)` times, in order, and every block is encoded. The sample counter ends at 512 per block. |
| Properties.IntProperty.constructor | czeditor/properties.py:10-11 | Holds the given value. |
| Properties.IntProperty.Set | czeditor/properties.py:26-31 | After `set(v)` or `val = v`, the holder returns `v`. |
| Properties.IntProperty.Copy | czeditor/properties.py:13-14 | A new holder returning the same value. |
| Properties.StringProperty.constructor | czeditor/properties.py:35-36 | Holds the given text. |
| Properties.StringProperty.Set | czeditor/properties.py:51-56 | After `set(v)` or `val = v`, the holder returns `v`. |
| Properties.StringProperty.Copy | czeditor/properties.py:38-39 | A new holder returning the same text. |
| Properties.LineStringProperty.constructor | czeditor/properties.py:91-92 | Holds the given text. |
| Properties.LineStringProperty.Set | czeditor/properties.py:107-112 | After `set(v)` or `val = v`, the holder returns `v`. |
| Properties.LineStringProperty.Copy | czeditor/properties.py:94-95 | A new holder returning the same text. |
| Properties.FileProperty.constructor | czeditor/properties.py:119-121 | Holds the path and the file type filter. |
| Properties.FileProperty.Set | czeditor/properties.py:136-141 | After `set(v)`, the holder returns `v` and keeps its filter. |
| Properties.FileProperty.Copy | czeditor/properties.py:123-124 | A new holder with the same path and the same filter. |
| Properties.TransientProperty.constructor | czeditor/properties.py:145-147 | The working value is a fresh copy of the parameter, which is kept as the original. |
| Properties.TransientProperty.Set | czeditor/properties.py:159-164 | Replaces the working value and keeps the original. |
| Properties.TransientProperty.Copy | czeditor/properties.py:149-150 | The copy is rebuilt from the original parameter's value, not the current working value. Its original and working values are fresh and distinct, and this holder is unchanged. |
| Properties.SizeProperty.constructor | czeditor/properties.py:168-174 | Ratios are size / base, so size = base × ratio. |
| Properties.SizeProperty.Call | czeditor/properties.py:179-180 | Returns (width, height), which under the invariant is the base scaled by the ratio. |
| Properties.SizeProperty.Set | czeditor/properties.py:182-186 | Stores the size, keeps the base and sets each ratio to size / base. On a zero base it raises part-way, leaving exactly the fields already stored. |
| Properties.SizeProperty.SetRelative | czeditor/properties.py:188-192 | Stores the ratios and rescales the size from the unchanged base; the invariant holds. |
| Properties.SizeProperty.SetBase | czeditor/properties.py:194-198 | Keeps both ratios and rescales the size to the new base × ratio; the invariant holds. |
| Properties.SizeProperty.Copy | czeditor/properties.py:176-177 | Same base and size, and the same ratios when the invariant holds; a zero base raises in the constructor. |
| Properties.RatioOfProduct | czeditor/properties.py:173-177 | Rebuilding from base × ratio recovers the ratio. |
| Properties.FloatProperty.constructor | czeditor/properties.py:211-213 | Holds the value and the optional timeline. |
| Properties.FloatProperty.Call | czeditor/properties.py:222-229 | Without a timeline, or when it gives None, the stored value. Otherwise the first entry's value; an empty entry list is IndexError. |
| Properties.FloatProperty.Set | czeditor/properties.py:253-254 | Stores the value and keeps the timeline. |
| Properties.FloatProperty.Copy | czeditor/properties.py:219-220 | Same value and same timeline, so the copy answers every frame alike. |
| Properties.SelectableProperty.constructor | czeditor/properties.py:259-260 | Holds the options and the index. |
| Properties.SelectableProperty.Set | czeditor/properties.py:268-269 | Changes only the selected index. |

## Left out

- Qt user interface: the viewport and video view widgets, their painting, resizing, mouse and wheel handling, the `Window` widget construction, and all of czeditor/property_widgets.py (GUI binding only).
- Raw OpenGL: texture parameters, buffer uploads, uniforms and the projection matrix (float camera maths). `composite` is reduced to the decisions it makes (compile, allocate, delete, draw), logged by `GlContext`. Framebuffer bindings are not modelled: after the intermediate passes keyframes.py:165 binds framebuffer 1, not the default 0, and after a resize keyframes.py:142 binds 0. So the draw the model labels as going to the output goes to whatever framebuffer 1 is. The pixel pointer of keyframes.py:60 is taken before the operators of a later call run, and that timing is not modelled either.
- `timerEvent` and the wall clock; `perf_counter()` readings are parameters.
- Threads: the `ThreadPoolExecutor` dispatch and the races between the audio callback and `threadseek`. `threadseek` runs as one sequential step, and `seeking` is a plain flag.
- FFT spectrum computation, `getframeimage`, `render` with moviepy, and the temporary audio file.
- Floating-point samples: samples are integers and mixing is exact element-wise addition.
- PyAV and file I/O: opening, decoding, pts conversion, `__len__`, `close`, the mp3 stream setup and muxing. The decoder is an abstract queue of decoded frames.
- `Keyframe.timelineitems`, `Keyframe.image` (an operator call, taken as the `image` parameter) and `FloatProperty.defaultKeyframe`: UI and animation plumbing outside the core.
- `OpenWindowButtonProperty`: it holds a Qt window and a button label for the UI, and has no logic beyond returning its value.
- `SelectableProperty.__call__` and `widget`: the `Selectable` class lives in czeditor/util, which is not part of this model.
- The module-level `composite` and `getviewportimage` helpers, which only call `Keyframe.composite` for each keyframe.
- Model.FrameToSample, Model.SampleToFrame, Model.FrameSampleRoundTrip: exact integer arithmetic (frame × 800, and sample / 800 truncated toward zero) stands for `int(frame/60*48000)` and `int(sample/48000*60)`. In IEEE-754 doubles these are off by one for about 6% of ordinary frames: frame 69 gives 55199.99999999999, so 55199, not 55200. The program's frame → sample → frame round trip then fails too (69 → 55199 → 68), so the round trip holds only for the exact arithmetic.
- Timeline.Keyframelist.SetFrame: a keyframe is a value here, so re-timing replaces the list element. Python mutates the shared keyframe object in place, and other holders of that object (such as the current state) see the change; that aliasing is not modelled.
- Timeline.Keyframelist.Locate: a keyframe reference is found by value equality; Python's `list.index` on objects without `__eq__` compares identity.
- Compositing.Keyframe.UpdatePrograms: `str(shader) != str(self.lastShaderList)` is modelled as structural inequality of fragment lists.
- Compositing.Keyframe.UpdatePrograms: `lastShaderList` is stored before `compileProgram` runs. The model assumes that compiling never raises. A compile error in Python would leave the cache naming the new list with only some programs built, and the next call with the same list would not recompile. `Valid()` excludes that state.
- Compositing.Keyframe.Composite: its own contract does not restate the framebuffer deletions; they are stated by `UpdateTexture`.
- Playback.Window.ThreadSeek: that `seeking` is set while the operators are notified is stated only as `NotifyOperators`' precondition; nothing concurrent can observe it here.
- Playback.Window.ThreadSeek: `getstate` runs outside the `try` of czeditor/czeditor.py:464-478. The model assumes that a keyframe's `actOnKeyframes` and `layer`, and the sort, never raise. If they did, Python would leave `seeking` set for good, so the audio callback would stay silent and `seek` would never submit again. The ensured `!seeking` does not cover that path.
- Engine.MixInto, Engine.GetSound: a contribution is 0-d or a two-channel (n, 2) block. An (n, 1) block, which `buffer += gotten` broadcasts into both channels, is not modelled. Neither are the errors on a 1-D array (`np.pad` is given pad widths for two axes) or on a block with three or more channels; the only error modelled is a block longer than 512 rows.
- Playback.Window.TriggerEvent: which handlers raise is a parameter, fixed for the call. A handler that connects or removes handlers for the same event while the loop runs is not modelled.
- AvReader.SeekableVideoReader.Store: a size mismatch is a different pixel count. NumPy instead compares shapes: it broadcasts a decoded frame with one row or one column into the buffer, where the model fails. It also rejects a transposed frame with the same pixel count, which the model stores.
- Playback.Window.GetNextSoundChunk: any exception from the mixer is modelled as the one a too-long contribution raises; the shape errors of the previous line are not modelled.
- AvReader.SeekableVideoReader.constructor: requires that decoding from the start yields a frame, since the Python constructor raises StopIteration otherwise and no reader exists.
- Properties.SizeProperty.Set, Properties.SizeProperty.SetRelative, Properties.SizeProperty.SetBase, Properties.SizeProperty.constructor, Properties.RatioOfProduct: sizes and ratios are exact reals, so the invariant size = base × ratio holds exactly. Python uses doubles, where it can fail by one ulp: a size of 1 over a base of 49 gives the ratio 1/49, and 49 × (1/49) is 0.9999999999999999.
- Properties.SizeProperty.Copy: the copy has the same ratios only over exact reals. In doubles, a base of 3 with ratio 0.1 gives a size of 0.30000000000000004, and the copy's ratio is 0.30000000000000004 / 3 = 0.10000000000000002.
- Properties.SizeProperty.constructor: requires nonzero bases; the Python constructor raises ZeroDivisionError otherwise and no holder exists.
- Properties.TransientProperty.constructor: the parameter is modelled as an `IntProperty`; Python accepts any object with `copy()`.
- The `sound` fallback of keyframes.py returns 1024 rows, but `getsound` pads to 512 rows and raises on longer input. czeditor.py calls `getSound` from czeditor/keyframes.py, which is not part of this model. So whether that fallback reaches the mixer cannot be decided here, and both halves are modelled as written.
