/**
  Go slices: a backing array that several slices can share, and a length of their own.

  Appending to a slice that does not fill its array writes the array in place, just behind the
  slice. Shorter slices of the same array keep their contents; longer ones do not.
 */
module GoSlices {

  datatype Slice<T> = Slice(data: array<T>, len: nat)
  {
    ghost predicate Valid() {
      len <= data.Length
    }

    /** The elements that the slice denotes in the current state. */
    ghost function Contents(): (s: seq<T>)
      requires Valid()
      reads data
      ensures |s| == len
    {
      data[..len]
    }
  }

  /** slice no longer reaches behind base: it has grown from base, or it has an array of its own. */
  ghost predicate Grown<T>(base: Slice<T>, slice: Slice<T>) {
    slice.data == base.data ==> base.len <= slice.len
  }

  /** The append of Go, for one element. */
  method Append<T>(s: Slice<T>, x: T) returns (r: Slice<T>)
    requires s.Valid()
    modifies s.data
    ensures r.Valid() && r.Contents() == old(s.Contents()) + [x]
    ensures fresh(r.data) || (r.data == s.data && s.len < s.data.Length)
    ensures s.data[..s.len] == old(s.data[..s.len])
    ensures fresh(r.data) ==> s.data[..] == old(s.data[..])
  {
    if s.len < s.data.Length {
      s.data[s.len] := x;
      r := Slice(s.data, s.len + 1);
    } else {
      var data := new T[2 * s.len + 1](_ => x);
      for i := 0 to s.len
        invariant s.data[..] == old(s.data[..])
        invariant data[..i] == s.data[..i]
        invariant forall k :: i <= k < data.Length ==> data[k] == x
      {
        data[i] := s.data[i];
      }
      assert data[..s.len + 1] == data[..s.len] + [x];
      r := Slice(data, s.len + 1);
    }
  }

  /** slices.Clone of s[from:]. Go leaves an empty clone without an array; an empty array is as good. */
  method Clone<T>(s: Slice<T>, from: nat) returns (r: Slice<T>)
    requires s.Valid() && from <= s.len
    ensures r.Valid() && fresh(r.data) && r.Contents() == s.Contents()[from..]
  {
    var data := new T[s.len - from](i requires 0 <= i < s.len - from && s.Valid() reads s.data => s.data[from + i]);
    r := Slice(data, s.len - from);
  }

  /** Appends all the elements of another slice that has an array of its own. */
  method AppendAll<T>(s: Slice<T>, more: Slice<T>) returns (r: Slice<T>)
    requires s.Valid() && more.Valid() && more.data != s.data
    modifies s.data
    ensures r.Valid() && r.Contents() == old(s.Contents()) + old(more.Contents())
    ensures fresh(r.data) || r.data == s.data
    ensures s.data[..s.len] == old(s.data[..s.len])
  {
    r := s;
    for i := 0 to more.len
      invariant more.data[..] == old(more.data[..])
      invariant r.Valid() && r.Contents() == old(s.Contents()) + old(more.Contents())[..i]
      invariant fresh(r.data) || r.data == s.data
      invariant r.data == s.data ==> s.len <= r.len
      invariant s.data[..s.len] == old(s.data[..s.len])
    {
      r := Append(r, more.data[i]);
      assert old(more.Contents())[..i + 1] == old(more.Contents())[..i] + [more.data[i]];
    }
    assert old(more.Contents())[..more.len] == old(more.Contents());
  }
}
