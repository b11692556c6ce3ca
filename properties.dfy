/** The value holders operator parameters are made of. Each is an object
    whose `set` (and `val` setter) updates it in place, whose call reads it,
    and whose `copy` builds a new, independent holder. */
module Properties {
  import opened Model

  /** An integer parameter. */
  class IntProperty {
    var val: int

    constructor (value: int)
      ensures val == value
    {
      val := value;
    }

    /** `__call__` and the `val` getter. */
    function Call(): int
      reads this
    {
      val
    }

    /** `set` and the `val` setter. */
    method Set(value: int)
      modifies this
      ensures val == value && Call() == value
    {
      val := value;
    }

    /** `copy`: a new holder with the same value. */
    method Copy() returns (c: IntProperty)
      ensures fresh(c) && c.Call() == Call()
    {
      c := new IntProperty(val);
    }
  }

  /** A text parameter edited in a multi-line box. */
  class StringProperty {
    var val: string

    constructor (value: string)
      ensures val == value
    {
      val := value;
    }

    /** `__call__`, `__str__` and the `val` getter. */
    function Call(): string
      reads this
    {
      val
    }

    method Set(value: string)
      modifies this
      ensures val == value && Call() == value
    {
      val := value;
    }

    method Copy() returns (c: StringProperty)
      ensures fresh(c) && c.Call() == Call()
    {
      c := new StringProperty(val);
    }
  }

  /** A text parameter edited in a single-line box. */
  class LineStringProperty {
    var val: string

    constructor (value: string)
      ensures val == value
    {
      val := value;
    }

    /** `__call__`, `__str__` and the `val` getter. */
    function Call(): string
      reads this
    {
      val
    }

    method Set(value: string)
      modifies this
      ensures val == value && Call() == value
    {
      val := value;
    }

    method Copy() returns (c: LineStringProperty)
      ensures fresh(c) && c.Call() == Call()
    {
      c := new LineStringProperty(val);
    }
  }

  /** A file path parameter with the file type filter of its chooser. */
  class FileProperty {
    var val: string
    var filetypes: string

    constructor (value: string, filetypes: string := "")
      ensures val == value && this.filetypes == filetypes
    {
      val := value;
      this.filetypes := filetypes;
    }

    function Call(): string
      reads this
    {
      val
    }

    /** `set` changes the path and keeps the filter. */
    method Set(value: string)
      modifies this
      ensures val == value && Call() == value && filetypes == old(filetypes)
    {
      val := value;
    }

    /** `copy` keeps the path and the filter. */
    method Copy() returns (c: FileProperty)
      ensures fresh(c) && c.Call() == Call() && c.filetypes == filetypes
    {
      c := new FileProperty(val, filetypes);
    }
  }

  /** A parameter whose working value starts as a copy of an original one;
      the working value may be edited or replaced, the original is kept. */
  class TransientProperty {
    var val: IntProperty
    var originalparam: IntProperty

    constructor (param: IntProperty)
      ensures fresh(val) && val.val == param.val && originalparam == param
    {
      var v := param.Copy();
      val := v;
      originalparam := param;
    }

    method Set(value: IntProperty)
      modifies this`val
      ensures val == value && originalparam == old(originalparam)
    {
      val := value;
    }

    /** `copy` rebuilds from a copy of the original, whatever the current
        working value is. */
    method Copy() returns (c: TransientProperty)
      ensures fresh(c) && fresh(c.originalparam) && fresh(c.val)
      ensures c.originalparam.val == originalparam.val && c.val.val == originalparam.val
      ensures c.val != c.originalparam
      ensures originalparam.val == old(originalparam.val) && val.val == old(val.val)
    {
      var p := originalparam.Copy();
      c := new TransientProperty(p);
    }
  }

  /** A size split into a base size and a ratio: the size always equals base
      times ratio. */
  class SizeProperty {
    var basewidth: real
    var baseheight: real
    var width: real
    var height: real
    var relativewidth: real
    var relativeheight: real

    /** Size = base * ratio in both dimensions. */
    ghost predicate Valid()
      reads this
    {
      width == basewidth * relativewidth && height == baseheight * relativeheight
    }

    /** The constructor divides by the base, which raises on a zero base. */
    constructor (basewidth: real, baseheight: real, width: real, height: real)
      requires basewidth != 0.0 && baseheight != 0.0
      ensures Valid()
      ensures this.basewidth == basewidth && this.baseheight == baseheight
      ensures this.width == width && this.height == height
      ensures relativewidth == width / basewidth && relativeheight == height / baseheight
    {
      this.basewidth := basewidth;
      this.baseheight := baseheight;
      this.width := width;
      this.height := height;
      relativewidth := width / basewidth;
      relativeheight := height / baseheight;
    }

    /** `__call__`: the size, which is the base scaled by the ratio. */
    function Call(): (r: (real, real))
      reads this
      ensures Valid() ==> r == (basewidth * relativewidth, baseheight * relativeheight)
    {
      (width, height)
    }

    /** `set`: stores the size, then the ratios; a zero base raises
        ZeroDivisionError part-way, after the size (and, for a zero height
        base only, the width ratio) was stored. */
    method Set(w: real, h: real) returns (ok: bool)
      modifies this
      ensures ok == (basewidth != 0.0 && baseheight != 0.0)
      ensures ok ==> Valid()
      ensures width == w && height == h
      ensures basewidth == old(basewidth) && baseheight == old(baseheight)
      ensures relativewidth == (if basewidth != 0.0 then w / basewidth else old(relativewidth))
      ensures relativeheight == (if ok then h / baseheight else old(relativeheight))
    {
      width := w;
      height := h;
      if basewidth == 0.0 {
        return false;
      }
      relativewidth := w / basewidth;
      if baseheight == 0.0 {
        return false;
      }
      relativeheight := h / baseheight;
      ok := true;
    }

    /** `setrelative`: stores the ratios and rescales the size from the base. */
    method SetRelative(rw: real, rh: real)
      modifies this
      ensures Valid()
      ensures relativewidth == rw && relativeheight == rh
      ensures basewidth == old(basewidth) && baseheight == old(baseheight)
      ensures width == basewidth * rw && height == baseheight * rh
    {
      relativewidth := rw;
      relativeheight := rh;
      width := basewidth * rw;
      height := baseheight * rh;
    }

    /** `setbase`: stores the base and rescales the size by the kept ratios. */
    method SetBase(bw: real, bh: real)
      modifies this
      ensures Valid()
      ensures basewidth == bw && baseheight == bh
      ensures relativewidth == old(relativewidth) && relativeheight == old(relativeheight)
      ensures width == bw * relativewidth && height == bh * relativeheight
    {
      basewidth := bw;
      baseheight := bh;
      width := basewidth * relativewidth;
      height := baseheight * relativeheight;
    }

    /** `copy`: a new holder with the same base and size, and so the same
        ratios; with a zero base the constructor raises (null here). */
    method Copy() returns (c: SizeProperty?)
      ensures c != null <==> basewidth != 0.0 && baseheight != 0.0
      ensures c != null ==> fresh(c) && c.Valid()
      ensures c != null ==> c.basewidth == basewidth && c.baseheight == baseheight
      ensures c != null ==> c.Call() == Call()
      ensures c != null && Valid() ==>
        c.relativewidth == relativewidth && c.relativeheight == relativeheight
    {
      if basewidth == 0.0 || baseheight == 0.0 {
        return null;
      }
      c := new SizeProperty(basewidth, baseheight, width, height);
      if Valid() {
        RatioOfProduct(basewidth, relativewidth);
        RatioOfProduct(baseheight, relativeheight);
      }
    }
  }

  /** Dividing base times ratio by a nonzero base gives the ratio back, so a
      holder rebuilt from its size and base has the same ratios. */
  lemma RatioOfProduct(base: real, ratio: real)
    requires base != 0.0
    ensures (base * ratio) / base == ratio
  {
  }

  /** A number parameter that may follow an animation timeline.
      `getValueAt(frame)` is abstract: None, or the entries active at the
      frame, of which the first one's value is used. */
  class FloatProperty {
    var val: real
    var timeline: Option<int -> Option<seq<real>>>

    constructor (value: real, timeline: Option<int -> Option<seq<real>>> := None)
      ensures val == value && this.timeline == timeline
    {
      val := value;
      this.timeline := timeline;
    }

    /** `__call__(frame)`: the timeline's first value at the frame; the stored
        value without a timeline or when the timeline gives None; an empty
        entry list raises IndexError (None here). */
    function Call(frame: int): (r: Option<real>)
      reads this
      ensures timeline.None? ==> r == Some(val)
      ensures timeline.Some? && timeline.value(frame).None? ==> r == Some(val)
      ensures timeline.Some? && timeline.value(frame).Some? ==>
        (r.None? <==> timeline.value(frame).value == [])
        && (r.Some? ==> r.value == timeline.value(frame).value[0])
    {
      match timeline
      case None => Some(val)
      case Some(getValueAt) =>
        match getValueAt(frame)
        case None => Some(val)
        case Some(gotten) => if gotten == [] then None else Some(gotten[0])
    }

    method Set(value: real)
      modifies this`val
      ensures val == value && timeline == old(timeline)
    {
      val := value;
    }

    /** `copy`: the same value and the same timeline, so the copy answers
        every frame alike. */
    method Copy() returns (c: FloatProperty)
      ensures fresh(c) && c.val == val && c.timeline == timeline
      ensures forall frame :: c.Call(frame) == Call(frame)
    {
      c := new FloatProperty(val, timeline);
    }
  }

  /** One entry of a drop-down: its label and the operator it stands for. */
  datatype Choice = Choice(name: string, value: Option<Op>)

  /** A drop-down parameter: a list of choices and the selected index. */
  class SelectableProperty {
    var options: seq<Choice>
    var index: int

    constructor (options: seq<Choice> := [Choice("None", None)], index: int := 0)
      ensures this.options == options && this.index == index
    {
      this.options := options;
      this.index := index;
    }

    /** `set`: selects another index (not checked against the options). */
    method Set(value: int)
      modifies this`index
      ensures index == value && options == old(options)
    {
      index := value;
    }
  }
}
