/** The timeline container `Keyframelist`: a list of keyframes kept in the
    order they were inserted until the next ordered read, which sorts it stably
    by frame. A flag records whether a mutation may have broken the order. */
module Timeline {
  import opened Model
  import opened Sorting

  /** The overloaded first argument of `change`, `remove` and `setframe`:
      either a list index or the keyframe object itself. */
  datatype Ref = ByIndex(i: int) | ByKeyframe(k: Keyframe)

  class Keyframelist {
    var keyframes: seq<Keyframe>
    var needssorting: bool

    /** The container's invariant: a clear flag means the list is sorted by frame. */
    ghost predicate Valid()
      reads this
    {
      !needssorting ==> SortedBy(keyframes, FrameOf)
    }

    /** The position a reference denotes in the current (possibly unsorted)
        internal order, or -1 where Python raises (ValueError from
        `list.index`, IndexError from indexing). */
    function Locate(o: Ref): (i: int)
      reads this
      ensures -1 <= i < |keyframes|
      ensures o.ByKeyframe? ==> (i >= 0 <==> o.k in keyframes) && (i >= 0 ==> keyframes[i] == o.k)
      ensures o.ByIndex? ==> (i >= 0 <==> -|keyframes| <= o.i < |keyframes|)
      // the first position holding the keyframe
      ensures o.ByKeyframe? ==> forall j :: 0 <= j < i ==> keyframes[j] != o.k
      // a negative index counts from the end
      ensures o.ByIndex? && i >= 0 ==> i == (if o.i < 0 then o.i + |keyframes| else o.i)
    {
      match o
      case ByKeyframe(k) => IndexOf(keyframes, k)
      case ByIndex(j) => ResolveIndex(j, |keyframes|)
    }

    constructor ()
      ensures Valid()
      ensures keyframes == [] && !needssorting
    {
      keyframes := [];
      needssorting := false;
    }

    /** `add`: appends and marks the list for sorting. */
    method Add(k: Keyframe)
      requires Valid()
      modifies this
      ensures Valid()
      ensures keyframes == old(keyframes) + [k] && needssorting
    {
      keyframes := keyframes + [k];
      needssorting := true;
    }

    /** `append`: the same as `add`. */
    method Append(k: Keyframe)
      requires Valid()
      modifies this
      ensures Valid()
      ensures keyframes == old(keyframes) + [k] && needssorting
    {
      keyframes := keyframes + [k];
      needssorting := true;
    }

    /** `change`: replaces the element at the referenced position of the
        current internal order; nothing else moves. */
    method Change(o: Ref, c: Keyframe) returns (ok: bool)
      requires Valid()
      modifies this
      ensures Valid()
      ensures ok == (old(Locate(o)) >= 0)
      ensures ok ==> keyframes == old(keyframes)[old(Locate(o)) := c] && needssorting
      ensures !ok ==> keyframes == old(keyframes) && needssorting == old(needssorting)
    {
      var i := Locate(o);
      if i < 0 {
        return false;
      }
      keyframes := keyframes[i := c];
      needssorting := true;
      ok := true;
    }

    /** `remove`: deletes the referenced element; the flag is left alone,
        which is sound because deleting from a sorted list keeps it sorted. */
    method Remove(o: Ref) returns (ok: bool)
      requires Valid()
      modifies this
      ensures Valid()
      ensures needssorting == old(needssorting)
      ensures ok == (old(Locate(o)) >= 0)
      ensures ok ==> keyframes == old(keyframes)[..old(Locate(o))] + old(keyframes)[old(Locate(o)) + 1..]
      ensures !ok ==> keyframes == old(keyframes)
    {
      var i := Locate(o);
      if i < 0 {
        return false;
      }
      DeleteKeepsSorted(keyframes, i);
      keyframes := keyframes[..i] + keyframes[i + 1..];
      ok := true;
    }

    /** `pop`: deletes by index only (the Python method returns nothing). */
    method Pop(i: int) returns (ok: bool)
      requires Valid()
      modifies this
      ensures Valid()
      ensures needssorting == old(needssorting)
      ensures ok == (-|old(keyframes)| <= i < |old(keyframes)|)
      ensures ok ==> var j := ResolveIndex(i, |old(keyframes)|);
                     keyframes == old(keyframes)[..j] + old(keyframes)[j + 1..]
      ensures !ok ==> keyframes == old(keyframes)
    {
      var j := ResolveIndex(i, |keyframes|);
      if j < 0 {
        return false;
      }
      DeleteKeepsSorted(keyframes, j);
      keyframes := keyframes[..j] + keyframes[j + 1..];
      ok := true;
    }

    /** `len`: read without sorting, it is still the length of the ordered
        view, and the indices `change`, `remove`, `pop` and `get` accept are
        exactly those from -len to len - 1. */
    function Len(): (n: nat)
      reads this
      ensures n == |StableSort(keyframes, FrameOf)|
      ensures forall i :: Locate(ByIndex(i)) >= 0 <==> -(n as int) <= i < n
    {
      |keyframes|
    }

    /** The sorting step shared by `get`, `__str__` and `__getitem__`: sort
        stably by frame only when flagged, then clear the flag. Either way the
        list afterwards is the stable sort of the list before. */
    method SortIfNeeded()
      requires Valid()
      modifies this
      ensures Valid() && !needssorting
      ensures keyframes == StableSort(old(keyframes), FrameOf)
      ensures !old(needssorting) ==> keyframes == old(keyframes)
      ensures SortedBy(keyframes, FrameOf) && multiset(keyframes) == multiset(old(keyframes))
    {
      if needssorting {
        keyframes := StableSort(keyframes, FrameOf);
        needssorting := false;
      } else {
        SortSortedIsIdentity(keyframes, FrameOf);
      }
    }

    /** `get` and `__getitem__`: sort if flagged, then index (IndexError gives
        None). The sort happens even when the index is out of range. */
    method Get(i: int) returns (r: Option<Keyframe>)
      requires Valid()
      modifies this
      ensures Valid() && !needssorting
      ensures keyframes == StableSort(old(keyframes), FrameOf)
      ensures r.Some? <==> -|keyframes| <= i < |keyframes|
      ensures r.Some? ==> r.value == keyframes[ResolveIndex(i, |keyframes|)]
    {
      SortIfNeeded();
      var j := ResolveIndex(i, |keyframes|);
      r := if j < 0 then None else Some(keyframes[j]);
    }

    /** `__str__`: sort if flagged, then render the whole list (rendering to
        text is left out; the ordered list is returned). */
    method Str() returns (view: seq<Keyframe>)
      requires Valid()
      modifies this
      ensures Valid() && !needssorting
      ensures view == keyframes == StableSort(old(keyframes), FrameOf)
    {
      SortIfNeeded();
      view := keyframes;
    }

    /** `__setitem__`: index assignment in the current internal order. */
    method SetItem(i: int, c: Keyframe) returns (ok: bool)
      requires Valid()
      modifies this
      ensures Valid()
      ensures ok == (-|old(keyframes)| <= i < |old(keyframes)|)
      ensures ok ==> keyframes == old(keyframes)[ResolveIndex(i, |old(keyframes)|) := c] && needssorting
      ensures !ok ==> keyframes == old(keyframes) && needssorting == old(needssorting)
    {
      var j := ResolveIndex(i, |keyframes|);
      if j < 0 {
        return false;
      }
      keyframes := keyframes[j := c];
      needssorting := true;
      ok := true;
    }

    /** `setframe`: re-times the referenced keyframe. */
    method SetFrame(o: Ref, frame: int) returns (ok: bool)
      requires Valid()
      modifies this
      ensures Valid()
      ensures ok == (old(Locate(o)) >= 0)
      ensures ok ==> var j := old(Locate(o));
                     keyframes == old(keyframes)[j := old(keyframes)[j].(frame := frame)] && needssorting
      ensures !ok ==> keyframes == old(keyframes) && needssorting == old(needssorting)
    {
      var j := Locate(o);
      if j < 0 {
        return false;
      }
      keyframes := keyframes[j := keyframes[j].(frame := frame)];
      needssorting := true;
      ok := true;
    }

    /** `isinrange`: only positive indices below the length; index 0 is rejected. */
    function IsInRange(i: int): (r: bool)
      reads this
      ensures r ==> 0 <= i < |keyframes|
      ensures r <==> 0 <= ResolveIndex(i, |keyframes|) && ResolveIndex(i, |keyframes|) == i && i != 0
    {
      |keyframes| > i && i > 0
    }

    /** `getsafe`: the element at `i` under exactly the `isinrange` condition,
        without sorting first. */
    function GetSafe(i: int): (r: Option<Keyframe>)
      reads this
      ensures r.Some? <==> IsInRange(i)
      ensures r.Some? ==> r.value == keyframes[i]
    {
      if |keyframes| > i && i > 0 then Some(keyframes[i]) else None
    }

    /** `isin`: exactly the keyframes that `change`, `remove` and `setframe`
        can locate, and, since sorting only reorders, exactly those of the
        ordered view. */
    function IsIn(k: Keyframe): (r: bool)
      reads this
      ensures r <==> Locate(ByKeyframe(k)) >= 0
      ensures r <==> k in StableSort(keyframes, FrameOf)
    {
      assert k in keyframes <==> k in multiset(StableSort(keyframes, FrameOf));
      k in keyframes
    }

    /** `create`: builds a keyframe at `frame` with the first source of the
        dropdown and no actions or effects, and appends it. */
    method Create(frame: int, id: nat, defaultSource: Op) returns (k: Keyframe)
      requires Valid()
      modifies this
      ensures Valid()
      ensures k == Keyframe(id, frame, defaultSource, [], [])
      ensures keyframes == old(keyframes) + [k] && needssorting
    {
      k := Keyframe(id, frame, defaultSource, [], []);
      Append(k);
    }
  }

  /** Deleting one element of a sorted list leaves it sorted. */
  lemma DeleteKeepsSorted(s: seq<Keyframe>, i: int)
    requires 0 <= i < |s|
    ensures SortedBy(s, FrameOf) ==> SortedBy(s[..i] + s[i + 1..], FrameOf)
  {
    if SortedBy(s, FrameOf) {
      var t := s[..i] + s[i + 1..];
      forall a, b | 0 <= a < b < |t| ensures FrameOf(t[a]) <= FrameOf(t[b]) {
        var a' := if a < i then a else a + 1;
        var b' := if b < i then b else b + 1;
        assert t[a] == s[a'] && t[b] == s[b'];
      }
    }
  }

  /** Inserting keyframes out of order and reading the ordered view gives the
      same list as inserting the sorted sequence, when the two insertion
      sequences keep equal-frame keyframes in the same order. */
  lemma OrderedViewIndependentOfInsertionOrder(a: seq<Keyframe>, b: seq<Keyframe>)
    requires multiset(a) == multiset(b)
    requires StableFor(a, b, FrameOf)
    ensures StableSort(a, FrameOf) == StableSort(b, FrameOf)
  {
    var sa := StableSort(a, FrameOf);
    var sb := StableSort(b, FrameOf);
    assert |a| == |multiset(a)| == |multiset(b)| == |b|;
    SortedStableUnique(sa, sb, FrameOf);
  }
}
