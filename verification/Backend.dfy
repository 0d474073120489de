// The write-coalescing file backend: appended bytes wait in a buffer, and the file, the buffer and
// two counters together look like one flat byte array (crates/tpx-io/src/mmap.rs).

module Backend {
  import opened Wrappers
  import opened Types
  import opened LittleEndian

  const WRITE_BUFFER_LIMIT := 1_048_576

  /** `bs` grown with zeros to at least `n` bytes. */
  function Grown(bs: Bytes, n: nat): (r: Bytes)
    ensures |r| == if |bs| < n then n else |bs|
    ensures bs <= r
  {
    if |bs| < n then bs + Zeros(n - |bs|) else bs
  }

  /** `bs` cut or zero-extended to exactly `n` bytes. */
  function Resized(bs: Bytes, n: nat): (r: Bytes)
    ensures |r| == n
  {
    if |bs| <= n then Grown(bs, n) else bs[..n]
  }

  /** A flat array after bytes are stored at `offset`, growing it when needed. */
  function Patched(bs: Bytes, offset: nat, data: Bytes): (r: Bytes)
    ensures |r| == if |bs| < offset + |data| then offset + |data| else |bs|
    ensures r[offset..offset + |data|] == data
    ensures forall i :: 0 <= i < |bs| && !(offset <= i < offset + |data|) ==> r[i] == bs[i]
  {
    var base := Grown(bs, offset + |data|);
    base[..offset] + data + base[offset + |data|..]
  }

  /** Seek and `write_all` on a file: writing nothing leaves the file as it is. */
  function FileWrite(file: Bytes, offset: nat, data: Bytes): Bytes {
    if data == [] then file else Patched(file, offset, data)
  }

  /** Writing at or past the end of the file appends, over a zero-filled gap. */
  lemma WriteAtEnd(file: Bytes, offset: nat, data: Bytes)
    requires |file| <= offset && data != []
    ensures FileWrite(file, offset, data) == Grown(file, offset) + data
  {
  }

  /** Bytes past the unwritten gap do not disturb a later patch. */
  lemma PatchGrown(file: Bytes, start: nat, offset: nat, data: Bytes)
    requires |file| <= start
    ensures var end := if start < offset + |data| then offset + |data| else start;
            Grown(FileWrite(file, offset, data), end) == Patched(Grown(file, start), offset, data)
  {
    var end := if start < offset + |data| then offset + |data| else start;
    var a, b := Grown(FileWrite(file, offset, data), end), Patched(Grown(file, start), offset, data);
    if data != [] {
      forall i | 0 <= i < end ensures a[i] == b[i] {
        if offset <= i < offset + |data| {
          assert a[i] == data[i - offset] == b[i];
        }
      }
    }
  }

  lemma PatchKeepsFront(file: Bytes, offset: nat, data: Bytes)
    ensures var w := FileWrite(file, offset, data);
            && (data == [] ==> w == file)
            && (data != [] ==> |w| == if |file| < offset + |data| then offset + |data| else |file|)
  {
  }

  lemma FrontKept(front: Bytes, file: Bytes, offset: nat, data: Bytes)
    requires front <= file
    ensures (if offset < |front| then front[..offset] else front) <= FileWrite(file, offset, data)
  {
  }

  class MmapBackend {
    const mode: OpenMode
    var file: Bytes
    var writeBuffer: Bytes
    var writeBufferStart: nat
    var logicalLen: nat
    // what is sure to be on disk: bytes that any crash leaves at the front of the file
    var durable: Bytes

    ghost predicate Valid()
      reads this
    {
      && |file| <= writeBufferStart
      && logicalLen == writeBufferStart + |writeBuffer|
      && (mode == ReadOnly ==> writeBuffer == [])
      && durable <= file
    }

    /** The flat array that callers see. */
    ghost function Content(): Bytes
      requires Valid()
      reads this
    {
      Grown(file, writeBufferStart) + writeBuffer
    }

    /** The file has no unwritten gap below the buffer. */
    ghost predicate Dense()
      reads this
    {
      |file| == writeBufferStart
    }

    constructor (file: Bytes, mode: OpenMode)
      ensures Valid() && Dense() && Content() == file && durable == file
      ensures this.mode == mode && writeBuffer == []
    {
      this.mode := mode;
      this.file := file;
      this.writeBuffer := [];
      this.writeBufferStart := |file|;
      this.logicalLen := |file|;
      this.durable := file;
    }

    /** Writes a non-empty buffer out at its place in the file and empties it. */
    method SpillBuffer()
      requires |file| <= writeBufferStart && writeBuffer != []
      modifies this`file, this`writeBuffer, this`writeBufferStart
      ensures file == old(Grown(file, writeBufferStart) + writeBuffer)
      ensures writeBuffer == [] && writeBufferStart == |file|
    {
      hide FileWrite, Grown;
      var targetStart := writeBufferStart;
      WriteAtEnd(file, targetStart, writeBuffer);
      file := FileWrite(file, targetStart, writeBuffer);
      writeBufferStart := targetStart + |writeBuffer|;
      writeBuffer := [];
    }

    method FlushBufferInternal()
      requires Valid()
      modifies this`file, this`writeBuffer, this`writeBufferStart
      ensures Valid() && Content() == old(Content()) && writeBuffer == []
      ensures old(Dense()) ==> Dense()
    {
      if writeBuffer == [] {
        return;
      }
      SpillBuffer();
    }

    method Append(data: Bytes) returns (r: Result<nat, TpxError>)
      requires Valid()
      modifies this`file, this`writeBuffer, this`writeBufferStart, this`logicalLen
      ensures Valid() && (old(Dense()) ==> Dense())
      ensures mode == ReadOnly ==> r == Failure(ReadOnlyMode) && Content() == old(Content())
      ensures mode != ReadOnly ==> r == Success(|old(Content())|) && Content() == old(Content()) + data
      ensures mode != ReadOnly ==>
                if |data| >= 1_048_576 || |old(writeBuffer)| + |data| >= 1_048_576 then writeBuffer == []
                else writeBuffer == old(writeBuffer) + data && file == old(file)
    {
      if mode == ReadOnly {
        return Failure(ReadOnlyMode);
      }
      hide Patched, FileWrite;
      var appendOffset := logicalLen;
      logicalLen := logicalLen + |data|;
      if |data| >= WRITE_BUFFER_LIMIT {
        if writeBuffer != [] {
          SpillBuffer();
        }
        WriteAtEnd(file, appendOffset, data);
        file := FileWrite(file, appendOffset, data);
        writeBufferStart := appendOffset + |data|;
        return Success(appendOffset);
      }
      writeBuffer := writeBuffer + data;
      if |writeBuffer| >= WRITE_BUFFER_LIMIT {
        SpillBuffer();
      }
      return Success(appendOffset);
    }

    method WriteAt(offset: nat, data: Bytes) returns (r: Result<(), TpxError>)
      requires Valid()
      modifies this
      ensures Valid()
      ensures mode == ReadOnly ==> r == Failure(ReadOnlyMode) && Content() == old(Content())
      ensures mode != ReadOnly ==> r == Success(()) && Content() == Patched(old(Content()), offset, data)
      ensures mode != ReadOnly ==> writeBuffer == []
      ensures old(Dense()) && (data != [] || offset <= old(logicalLen)) ==> Dense()
    {
      if mode == ReadOnly {
        return Failure(ReadOnlyMode);
      }
      FlushBufferInternal();
      hide Patched, FileWrite, Grown;
      ghost var flushed := file;
      assert old(Content()) == Grown(file, writeBufferStart);
      PatchGrown(file, writeBufferStart, offset, data);
      PatchKeepsFront(file, offset, data);
      durable := if offset < |durable| then durable[..offset] else durable;
      assert durable <= FileWrite(file, offset, data) by {
        FrontKept(old(durable), flushed, offset, data);
      }
      file := FileWrite(file, offset, data);
      var end := offset + |data|;
      logicalLen := if logicalLen < end then end else logicalLen;
      writeBufferStart := if writeBufferStart < end then end else writeBufferStart;
      assert Content() == Grown(file, writeBufferStart);
      return Success(());
    }

    /** `read_exact` of `len` bytes; reading nothing never fails. */
    method ReadAt(offset: nat, len: nat) returns (r: Result<Bytes, TpxError>)
      requires Valid()
      modifies this`file, this`writeBuffer, this`writeBufferStart
      ensures Valid() && Content() == old(Content()) && (old(Dense()) ==> Dense())
      ensures offset + len <= old(writeBufferStart) ==> file == old(file) && writeBuffer == old(writeBuffer)
      ensures offset + len > old(writeBufferStart) ==> writeBuffer == []
      ensures r.Success? && len > 0 ==> offset + len <= |Content()|
      ensures r.Success? ==> r.value == if len == 0 then [] else Content()[offset..offset + len]
      ensures old(Dense()) ==> (r.Success? <==> len == 0 || offset + len <= |Content()|)
      ensures r.Failure? ==> r.error == TpxError.Io
    {
      var wbStart := writeBufferStart;
      if offset + len > wbStart {
        FlushBufferInternal();
      }
      if len == 0 {
        return Success([]);
      }
      if offset + len <= |file| {
        return Success(file[offset..offset + len]);
      }
      return Failure(TpxError.Io);
    }

    method Len() returns (n: nat)
      requires Valid()
      ensures n == |Content()|
    {
      n := logicalLen;
    }

    method Sync()
      requires Valid()
      modifies this`file, this`writeBuffer, this`writeBufferStart, this`durable
      ensures Valid() && Content() == old(Content()) && (old(Dense()) ==> Dense())
      ensures mode != ReadOnly && old(Dense()) ==> durable == Content()
      ensures mode == ReadOnly ==> durable == old(durable)
    {
      if mode != ReadOnly {
        FlushBufferInternal();
        durable := file;
      }
    }

    /** Drops the buffer and sets the length: buffered bytes are lost even below `len`. */
    method Truncate(len: nat)
      requires Valid()
      modifies this
      ensures Valid() && Dense() && writeBuffer == []
      ensures Content() == Resized(old(Grown(file, writeBufferStart)), len)
      ensures durable == if len < |old(durable)| then old(durable)[..len] else old(durable)
    {
      writeBuffer := [];
      writeBufferStart := len;
      logicalLen := len;
      durable := if len < |durable| then durable[..len] else durable;
      file := Resized(file, len);
      assert file == Resized(old(Grown(file, writeBufferStart)), len);
    }
  }
}
