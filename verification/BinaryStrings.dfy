/** A byte string that manages its own capacity (lab31/v2/binaryString/BinaryString.cpp). The
    recorded capacity may be smaller than the allocated one, and even smaller than the length,
    since `SubBinaryString` records it in the wrong object; no operation relies on more than that
    it is not too large. */
module BinaryStrings {

  class BinaryString {
    var data: array?<char>
    var dataSize: int
    var mallocedSize: int

    function Allocated(): nat
      reads this
    {
      if data == null then 0 else data.Length
    }

    predicate Valid()
      reads this
    {
      0 <= dataSize <= Allocated() && 0 <= mallocedSize <= Allocated()
    }

    /** What the string stands for. */
    function Contents(): (s: string)
      requires Valid()
      reads this, data
      ensures |s| == dataSize
    {
      if data == null then "" else data[..dataSize]
    }

    /** Two strings never share their bytes. */
    predicate Apart(other: BinaryString)
      reads this, other
    {
      other == this || data == null || other.data != data
    }

    constructor ()
      ensures Valid() && Contents() == "" && data == null
    {
      data, dataSize, mallocedSize := null, 0, 0;
    }

    constructor From(otherData: string)
      ensures Valid() && Contents() == otherData && mallocedSize == |otherData|
      ensures data == null || fresh(data)
    {
      dataSize, mallocedSize := |otherData|, 0;
      data := null;
      new;
      if |otherData| > 0 {
        data := new char[|otherData|];
        mallocedSize := |otherData|;
        for i := 0 to |otherData|
          invariant data != null && fresh(data) && data.Length == |otherData|
          invariant dataSize == |otherData| && mallocedSize == |otherData|
          invariant data[..i] == otherData[..i]
        {
          data[i] := otherData[i];
        }
        assert data[..] == otherData;
      }
    }

    constructor Copy(other: BinaryString)
      requires other.Valid()
      ensures Valid() && Contents() == other.Contents() && fresh(data) && mallocedSize == other.dataSize
    {
      dataSize, mallocedSize := other.dataSize, other.dataSize;
      data := new char[other.dataSize];
      new;
      for i := 0 to other.dataSize
        invariant data != null && fresh(data) && data.Length == other.dataSize
        invariant dataSize == other.dataSize && mallocedSize == other.dataSize
        invariant data[..i] == other.Contents()[..i]
      {
        data[i] := other.data[i];
      }
      assert data[..] == other.Contents();
    }

    /** The bytes from `positionStart` up to `positionEnd`, cut off at as many bytes as this string
        has. The capacity of this string, not of the result, is set to their number. */
    method SubBinaryString(positionStart: int, positionEnd: int) returns (r: BinaryString)
      requires Valid() && 0 <= positionStart <= positionEnd
      requires positionStart + Shorter(dataSize, positionEnd - positionStart) <= Allocated()
      modifies `mallocedSize
      ensures Valid() && Contents() == old(Contents())
      ensures fresh(r) && r.Valid() && fresh(r.data) && r.mallocedSize == 0
      ensures r.dataSize == Shorter(dataSize, positionEnd - positionStart) == mallocedSize
      ensures r.Contents() == if data == null then "" else data[positionStart..positionStart + r.dataSize]
      ensures positionEnd <= dataSize ==> r.Contents() == Contents()[positionStart..positionEnd]
    {
      r := new BinaryString();
      if dataSize >= positionEnd - positionStart {
        r.dataSize := positionEnd - positionStart;
      } else {
        r.dataSize := dataSize;
      }
      r.data := Piece(positionStart, r.dataSize);
      mallocedSize := r.dataSize;
      SliceOfContents(positionStart, positionStart + r.dataSize);
    }

    /** Lines 67-72: a copy of `size` bytes. */
    method Piece(positionStart: int, size: int) returns (bytes: array<char>)
      requires Valid() && 0 <= positionStart <= positionStart + size <= Allocated()
      ensures fresh(bytes) && bytes.Length == size
      ensures bytes[..size] == if data == null then "" else data[positionStart..positionStart + size]
    {
      bytes := new char[size];
      for i := 0 to size
        invariant forall k | 0 <= k < i :: data != null && bytes[k] == data[positionStart + k]
      {
        bytes[i] := data[i + positionStart];
      }
    }

    lemma SliceOfContents(i: int, j: int)
      requires Valid() && 0 <= i <= j
      ensures data != null && j <= dataSize ==> data[i..j] == Contents()[i..j]
      ensures data == null && j <= dataSize ==> Contents()[i..j] == ""
    {
    }

    /** Appends a copy of `other`, which may be this very string. */
    method Add(other: BinaryString)
      requires Valid() && other.Valid()
      modifies this
      ensures Valid() && Contents() == old(Contents()) + old(other.Contents())
      ensures fresh(data) && mallocedSize == dataSize
    {
      var binaryString := new BinaryString.Copy(other);
      ghost var was, tail := Contents(), binaryString.Contents();
      var newSize := dataSize + binaryString.dataSize;
      var newData := new char[newSize];
      for i := 0 to dataSize
        modifies newData
        invariant forall k | 0 <= k < i :: newData[k] == was[k]
      {
        newData[i] := data[i];
      }
      for i := 0 to binaryString.dataSize
        modifies newData
        invariant forall k | 0 <= k < dataSize :: newData[k] == was[k]
        invariant forall k | 0 <= k < i :: newData[dataSize + k] == tail[k]
      {
        newData[i + dataSize] := binaryString.data[i];
      }
      data := newData;
      dataSize := newSize;
      mallocedSize := newSize;
      assert Contents() == was + tail;
    }

    /** `operator=`. The old bytes are given up before `other` is read, so assigning a string to
        itself keeps its length only. */
    method Assign(other: BinaryString)
      requires Valid() && other.Valid()
      modifies this
      ensures Valid() && fresh(data) && dataSize == mallocedSize == old(other.dataSize)
      ensures other != this ==> Contents() == other.Contents() == old(other.Contents())
    {
      dataSize := other.dataSize;
      data := new char[dataSize];
      mallocedSize := dataSize;
      for i := 0 to other.dataSize
        invariant data != null && fresh(data) && data.Length == dataSize == mallocedSize == other.dataSize
        invariant dataSize == old(other.dataSize)
        invariant other != this ==> other.Valid() && other.Contents() == old(other.Contents())
        invariant other != this ==> data[..i] == other.Contents()[..i]
      {
        data[i] := other.data[i];
      }
    }

    method ClearData()
      requires Valid()
      modifies `dataSize, data
      ensures Valid() && Contents() == ""
      ensures forall i | 0 <= i < mallocedSize :: data[i] == 0 as char
    {
      for i := 0 to mallocedSize
        invariant forall j | 0 <= j < i :: data[j] == 0 as char
      {
        data[i] := 0 as char;
      }
      dataSize := 0;
    }

    /** Replaces this string by a piece of `other`. A piece of the string itself is moved down within
        the same bytes, so it must fit the recorded capacity; otherwise the bytes are given up
        before they are read. */
    method SetNewDataNotMalloc(other: BinaryString, start: int, end: int)
      requires Valid() && other.Valid() && Apart(other)
      requires 0 <= start <= end <= other.dataSize
      requires other == this ==> end - start <= mallocedSize
      modifies this, data
      ensures Valid() && Contents() == old(other.Contents()[start..end])
      ensures if old(mallocedSize) < end - start then fresh(data) && mallocedSize == end - start + 10
              else data == old(data) && mallocedSize == old(mallocedSize)
      ensures other != this ==> other.Valid() && other.Contents() == old(other.Contents())
    {
      ghost var was := other.Contents();
      if mallocedSize < end - start {
        data := new char[end - start + 10];
        mallocedSize := end - start + 10;
      }
      dataSize := end - start;
      for i := start to end
        modifies data
        invariant forall k | start <= k < i :: data[k - start] == was[k]
        invariant forall k | i <= k < end :: other.data[k] == was[k]
      {
        data[i - start] := other.data[i];
      }
      assert data != null ==> data[..end - start] == was[start..end];
    }

    /** Appends `other`, in place if the recorded capacity allows. Only then may `other` be this very
        string: growing gives up the bytes before they are read again. */
    method AddToMallocedBuf(other: BinaryString)
      requires Valid() && other.Valid() && Apart(other)
      requires other == this ==> dataSize + dataSize <= mallocedSize
      modifies this, data
      ensures Valid() && Contents() == old(Contents()) + old(other.Contents())
      ensures if old(mallocedSize) < old(dataSize) + old(other.dataSize)
        then fresh(data) && mallocedSize == dataSize + 10
        else data == old(data) && mallocedSize == old(mallocedSize)
      ensures other != this ==> other.Valid() && other.Contents() == old(other.Contents())
    {
      if mallocedSize < dataSize + other.dataSize {
        Grow(other);
      } else {
        AppendInPlace(other);
      }
    }

    /** Lines 191-203. */
    method Grow(other: BinaryString)
      requires Valid() && other.Valid() && Apart(other) && other != this
      modifies this
      ensures Valid() && Contents() == old(Contents()) + other.Contents()
      ensures fresh(data) && mallocedSize == dataSize + 10
    {
      var newBuf := new char[dataSize + other.dataSize + 10];
      mallocedSize := dataSize + other.dataSize + 10;
      ghost var was, tail := if data == null then "" else data[..dataSize], other.Contents();
      for i := 0 to dataSize
        modifies newBuf
        invariant forall k | 0 <= k < i :: newBuf[k] == was[k]
      {
        newBuf[i] := data[i];
      }
      for i := dataSize to dataSize + other.dataSize
        modifies newBuf
        invariant forall k | 0 <= k < dataSize :: newBuf[k] == was[k]
        invariant forall k | dataSize <= k < i :: newBuf[k] == tail[k - dataSize]
      {
        newBuf[i] := other.data[i - dataSize];
      }
      dataSize := dataSize + other.dataSize;
      data := newBuf;
      assert Contents() == was + tail;
    }

    /** Lines 206-209. */
    method AppendInPlace(other: BinaryString)
      requires Valid() && other.Valid() && Apart(other) && dataSize + other.dataSize <= mallocedSize
      modifies `dataSize, data
      ensures Valid() && Contents() == old(Contents()) + old(other.Contents())
      ensures other != this ==> other.Valid() && other.Contents() == old(other.Contents())
    {
      ghost var was, tail := Contents(), other.Contents();
      for i := 0 to other.dataSize
        modifies data
        invariant Contents() == was && other.Contents() == tail
        invariant forall k | 0 <= k < i :: data[dataSize + k] == tail[k]
      {
        data[i + dataSize] := other.data[i];
      }
      dataSize := dataSize + other.dataSize;
      assert Contents() == was + tail;
    }
  }

  function Shorter(a: int, b: int): int { if a >= b then b else a }
}
