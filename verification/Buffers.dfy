// The byte buffer all data passes through: a block of memory of some capacity, the first
// part of which is in use.
module Buffers {
  import opened Bytes
  import opened Common

  /** What flushing leaves: flushing nothing empties a buffer, as does flushing all of it. */
  function Flushed(b: seq<byte>, n: nat): seq<byte> {
    if n == 0 || n >= |b| then [] else b[n..]
  }

  /** Copying n octets within a block to its start, front to back: safe for any distance. */
  method MoveDown(a: array<byte>, from: nat, n: nat)
    requires from + n <= a.Length
    modifies a
    ensures a[..n] == old(a[from..from + n])
  {
    for i := 0 to n
      invariant a[..i] == old(a[from..from + i])
      invariant forall k :: i <= k < a.Length ==> a[k] == old(a[k])
    {
      a[i] := a[from + i];
    }
  }

  /** Copying between two ranges of a block that must not overlap; the order of the single
      copies is up to the machine, here back to front. */
  method CopyDown(a: array<byte>, from: nat, n: nat)
    requires from + n <= a.Length
    requires n <= from
    modifies a
    ensures a[..n] == old(a[from..from + n])
  {
    var i := n;
    while i > 0
      invariant 0 <= i <= n
      invariant a[i..n] == old(a[from + i..from + n])
      invariant forall k :: n <= k < a.Length ==> a[k] == old(a[k])
    {
      i := i - 1;
      a[i] := a[from + i];
      assert a[i..n] == [a[i]] + a[i + 1..n];
    }
  }

  lemma SliceOfSlice(s: seq<byte>, n: nat, i: nat, j: nat)
    requires i <= j <= n <= |s|
    ensures s[..n][i..j] == s[i..j]
  {
  }

  class Buffer {
    var data: array<byte>
    var used: nat

    ghost predicate Valid()
      reads this
    {
      used <= data.Length
    }

    ghost function Contents(): seq<byte>
      requires Valid()
      reads this, data
    {
      data[..used]
    }

    constructor (capacity: nat)
      ensures Valid() && fresh(data) && data.Length == capacity && Contents() == []
    {
      data := new byte[capacity];
      used := 0;
    }

    /** Requests for less than there is are ignored; a new block is exactly as large as asked
        for, as without the memory pool. */
    method Capacity(c: nat) returns (resized: bool)
      requires Valid()
      modifies this`data
      ensures Valid() && Contents() == old(Contents()) && used == old(used)
      ensures resized == (old(data.Length) < c)
      ensures data.Length == if resized then c else old(data.Length)
      ensures if resized then fresh(data) else data == old(data)
    {
      if data.Length >= c {
        return false;
      }
      var d := new byte[c];
      for i := 0 to used
        modifies d
        invariant d[..i] == data[..i]
      {
        d[i] := data[i];
      }
      data := d;
      return true;
    }

    method Size(s: nat) returns (resized: bool)
      requires Valid()
      modifies this
      ensures Valid() && used == s
      ensures resized == (old(data.Length) < s)
      ensures data.Length == if resized then s else old(data.Length)
      ensures if resized then fresh(data) else data == old(data)
      ensures var n := if s < old(used) then s else old(used); Contents()[..n] == old(Contents())[..n]
    {
      resized := false;
      if data.Length < s {
        resized := Capacity(s);
      }
      used := s;
    }

    method Append(s: seq<byte>)
      requires Valid()
      modifies this, data
      ensures Valid() && Contents() == old(Contents()) + s
      ensures data.Length == if s != [] && old(data.Length) < old(used) + |s| then old(used) + |s| else old(data.Length)
      ensures fresh(data) || data == old(data)
    {
      if s != [] {
        var ns := used + |s|;
        if data.Length < ns {
          var _ := Capacity(ns);
        }
        ghost var before := Contents();
        for i := 0 to |s|
          modifies data
          invariant data[..used] == before
          invariant data[used..used + i] == s[..i]
        {
          data[used + i] := s[i];
        }
        used := ns;
        assert Contents() == before + s;
      } else {
        assert old(Contents()) + s == old(Contents());
      }
    }

    /** A flush of less than half moves overlapping memory and must not use the plain copy. */
    method Flush(bytes: nat)
      requires Valid()
      modifies this`used, data
      ensures Valid() && Contents() == Flushed(old(Contents()), bytes)
      ensures data == old(data)
    {
      if bytes == 0 || bytes >= used {
        used := 0;
        return;
      }
      if 2 * bytes < used {
        MoveDown(data, bytes, used - bytes);
      } else {
        CopyDown(data, bytes, used - bytes);
      }
      used := used - bytes;
    }

    method Swap(x: Buffer)
      requires Valid() && x.Valid() && x != this
      modifies this, x
      ensures Valid() && x.Valid()
      ensures data == old(x.data) && used == old(x.used)
      ensures x.data == old(data) && x.used == old(used)
    {
      var d, s := x.data, x.used;
      x.data, x.used := data, used;
      data, used := d, s;
    }

    /** A window into the buffer, clipped at its end; a start behind the contents is an
        error. */
    method View(pos: nat, len: nat) returns (v: Option<seq<byte>>)
      requires Valid()
      ensures v == if pos >= used then None
                   else Some(Contents()[pos..if pos + len <= used then pos + len else used])
    {
      if pos >= used {
        return None;
      }
      var end := if pos + len <= used then pos + len else used;
      SliceOfSlice(data[..], used, pos, end);
      if pos + len <= used {
        v := Some(data[pos..pos + len]);
      } else {
        v := Some(data[pos..used]);
      }
    }
  }
}
