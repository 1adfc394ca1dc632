/** Go slices: windows on arrays that several slices may share. */
module Slices {
  import opened Git

  /** A Go slice: a window on an array with room to grow, or nil. */
  datatype Slice = Nil | Slice(arr: array<nat>, off: nat, len: nat, cap: nat)

  ghost predicate Wf(s: Slice) {
    s.Slice? ==> s.len <= s.cap && s.off + s.cap <= s.arr.Length
  }

  ghost function View(s: Slice): seq<nat>
    requires Wf(s)
    reads if s.Slice? then {s.arr} else {}
  {
    if s.Nil? then [] else s.arr[s.off..s.off + s.len]
  }

  ghost function Backing(s: Slice): set<object> {
    if s.Slice? then {s.arr} else {}
  }

  /** s with the elements from `at` on replaced by items. */
  function Overwrite(s: seq<nat>, at: nat, items: seq<nat>): (r: seq<nat>)
    requires at + |items| <= |s|
    ensures |r| == |s| && r[..at] == s[..at]
    ensures forall j :: at + |items| <= j < |s| ==> r[j] == s[j]
  {
    s[..at] + items + s[at + |items|..]
  }

  lemma OverwriteNext(s: seq<nat>, at: nat, items: seq<nat>, i: nat)
    requires at + |items| <= |s| && i < |items|
    ensures Overwrite(s, at, items[..i + 1]) == Overwrite(s, at, items[..i])[at + i := items[i]]
  {
  }

  lemma OverwriteWindow(s: seq<nat>, off: nat, len: nat, items: seq<nat>)
    requires off + len + |items| <= |s|
    ensures Overwrite(s, off + len, items)[off..off + len + |items|] == s[off..off + len] + items
    ensures Overwrite(s, off + len, items)[..off] == s[..off]
  {
    var r := Overwrite(s, off + len, items);
    assert r[..off] == r[..off + len][..off] == s[..off + len][..off];
    assert r[off..off + len] == r[..off + len][off..] == s[..off + len][off..];
  }

  /** append(s, t...): in place while the capacity lasts, so it may write into
      an array others still see; a new array otherwise. */
  method Append(s: Slice, t: Slice) returns (r: Slice)
    requires Wf(s) && Wf(t)
    modifies Backing(s)
    ensures Wf(r) && View(r) == old(View(s)) + old(View(t))
    ensures r == s || (r.Slice? && fresh(r.arr)) || (s.Slice? && r == Slice(s.arr, s.off, |View(r)|, s.cap))
    ensures s.Slice? ==> s.arr[..s.off] == old(s.arr[..s.off])
    ensures s.Slice? ==> forall i :: s.off + s.len + |old(View(t))| <= i < s.arr.Length ==> s.arr[i] == old(s.arr[i])
  {
    if t.Nil? || t.len == 0 {
      assert View(s) == View(s) + [];
      return s;
    }
    // the elements are read before any is written, as memmove does
    var items := t.arr[t.off..t.off + t.len];
    if s.Slice? && s.len + t.len <= s.cap {
      r := AppendInPlace(s, items);
    } else {
      r := NewSlice((if s.Slice? then s.arr[s.off..s.off + s.len] else []) + items);
    }
  }

  method AppendInPlace(s: Slice, items: seq<nat>) returns (r: Slice)
    requires s.Slice? && Wf(s) && s.len + |items| <= s.cap
    modifies s.arr
    ensures r == Slice(s.arr, s.off, s.len + |items|, s.cap) && Wf(r)
    ensures View(r) == old(View(s)) + items
    ensures s.arr[..s.off] == old(s.arr[..s.off])
    ensures forall i :: s.off + s.len + |items| <= i < s.arr.Length ==> s.arr[i] == old(s.arr[i])
  {
    hide Overwrite;
    ghost var before := s.arr[..];
    WriteItems(s.arr, s.off + s.len, items);
    OverwriteWindow(before, s.off, s.len, items);
    r := Slice(s.arr, s.off, s.len + |items|, s.cap);
    Windows(s.arr, s.off, s.len + |items|);
    assert forall i :: s.off + s.len + |items| <= i < s.arr.Length ==> s.arr[..][i] == before[i];
  }

  lemma Windows(arr: array<nat>, off: nat, len: nat)
    requires off + len <= arr.Length
    ensures arr[off..off + len] == arr[..][off..off + len]
    ensures arr[..off] == arr[..][..off]
  {
  }

  method NewSlice(items: seq<nat>) returns (r: Slice)
    ensures r.Slice? && fresh(r.arr) && Wf(r) && View(r) == items
  {
    var spare: int := *;
    if spare < 0 {
      spare := 0;
    }
    var arr := new nat[|items| + spare](i => if 0 <= i < |items| then items[i] else 0);
    assert arr[..|items|] == items;
    return Slice(arr, 0, |items|, |items| + spare);
  }

  method WriteItems(arr: array<nat>, at: nat, items: seq<nat>)
    requires at + |items| <= arr.Length
    modifies arr
    ensures arr[..] == Overwrite(old(arr[..]), at, items)
  {
    ghost var before := arr[..];
    assert items[..0] == [] && arr[..] == Overwrite(before, at, []);
    hide Overwrite;
    for i := 0 to |items|
      invariant arr[..] == Overwrite(before, at, items[..i])
    {
      OverwriteNext(before, at, items, i);
      arr[at + i] := items[i];
    }
    assert items[..|items|] == items;
  }
}
