/**
 * The in-memory VFS file of include/mem_vfs.in.rs: a whole database file
 * held in a growable byte vector, written and truncated in place, plus the
 * methods that only return constants.
 *
 * Offsets and sizes arrive as `i64` and `i32`; a negative one makes the
 * `try_into().unwrap()` conversion to `usize` panic before anything changes.
 */
module MemVfs {
  import opened Wrappers

  /** SQLITE_IOERR and the extended codes built on it (`sqlite3.h`). */
  const SqliteIoErr := 10
  const SqliteIoErrDelete := SqliteIoErr + 10 * 256
  const SqliteIoErrShmLock := SqliteIoErr + 20 * 256
  const SqliteIoErrShmMap := SqliteIoErr + 21 * 256

  /** SQLITE_IOCAP_ATOMIC, _SAFE_APPEND, _SEQUENTIAL and _POWERSAFE_OVERWRITE (`sqlite3.h`). */
  const IoCapAtomic := 0x1
  const IoCapSafeAppend := 0x200
  const IoCapSequential := 0x400
  const IoCapPowersafeOverwrite := 0x1000

  /** How an I/O method ends: `Ok`, an error carrying an SQLite code, or a panic. */
  datatype IoResult = Done | Failed(code: int) | Panicked

  /** `n` zero bytes, what `Vec::resize(_, 0)` appends. */
  function Zeros(n: nat): (z: seq<Byte>)
    ensures |z| == n && forall k :: 0 <= k < n ==> z[k] == 0
  {
    seq(n, _ => 0)
  }

  function Max(a: int, b: int): int
  {
    if a < b then b else a
  }

  /**
   * The file after `buf` is written at `offset`, byte by byte: the window
   * holds `buf`, bytes before the old end keep their value, and the gap
   * between the old end and the window is zero.
   */
  ghost function Written(before: seq<Byte>, buf: seq<Byte>, offset: nat): seq<Byte>
  {
    seq(Max(|before|, offset + |buf|), k requires 0 <= k =>
      if offset <= k < offset + |buf| then buf[k - offset]
      else if k < |before| then before[k]
      else 0)
  }

  /** Writing the same bytes at the same place twice is writing them once. */
  lemma WriteIdempotent(c: seq<Byte>, buf: seq<Byte>, offset: nat)
    ensures Written(Written(c, buf, offset), buf, offset) == Written(c, buf, offset)
  {
  }

  /** Writes to windows that do not overlap can be done in either order. */
  lemma DisjointWritesCommute(c: seq<Byte>, a: seq<Byte>, i: nat, b: seq<Byte>, j: nat)
    requires i + |a| <= j || j + |b| <= i
    ensures Written(Written(c, a, i), b, j) == Written(Written(c, b, j), a, i)
  {
  }

  /** A later write over the whole of an earlier window hides the earlier one. */
  lemma OverwriteHides(c: seq<Byte>, a: seq<Byte>, b: seq<Byte>, offset: nat)
    requires |a| <= |b|
    ensures Written(Written(c, a, offset), b, offset) == Written(c, b, offset)
  {
  }

  /** The file after `truncate(size)`: the first bytes kept, any growth zero. */
  ghost function Truncated(before: seq<Byte>, size: nat): seq<Byte>
  {
    if size <= |before| then before[..size] else before + Zeros(size - |before|)
  }

  /** Truncating to the current size, or after a write that stayed inside the file, keeps the length. */
  lemma TruncateAfterWrite(c: seq<Byte>, buf: seq<Byte>, offset: nat)
    requires offset + |buf| <= |c|
    ensures Truncated(Written(c, buf, offset), |c|) == Written(c, buf, offset)
  {
  }

  /** `MemFile`: the file's bytes. */
  class MemFile {
    var contents: seq<Byte>

    /** A file opened with nothing read into it. */
    constructor ()
      ensures contents == []
    {
      contents := [];
    }

    /**
     * `write`: grow the vector with zeros to `offset + size` if it is
     * shorter, then copy `buf` over `[offset, offset + size)`. SQLite hands
     * over a buffer of `s` bytes.
     */
    method Write(buf: seq<Byte>, s: int, ofst: int) returns (r: IoResult)
      requires s >= 0 ==> |buf| == s
      modifies this
      ensures r == if s < 0 || ofst < 0 then Panicked else Done
      ensures r.Panicked? ==> contents == old(contents)
      ensures r.Done? ==>
        && |contents| == Max(|old(contents)|, ofst + s)
        && contents[ofst..ofst + s] == buf
        && (forall k :: 0 <= k < |old(contents)| && !(ofst <= k < ofst + s) ==> contents[k] == old(contents)[k])
        && (forall k :: |old(contents)| <= k < ofst ==> contents[k] == 0)
      ensures r.Done? ==> contents == Written(old(contents), buf, ofst)
    {
      if s < 0 || ofst < 0 {
        return Panicked;
      }
      var size, offset := s, ofst;
      var newLength := size + offset;
      if newLength > |contents| {
        contents := contents + Zeros(newLength - |contents|);
      }
      contents := contents[..offset] + buf + contents[offset + size..];
      r := Done;
    }

    /** `truncate`: resize to `size`, keeping the first bytes and zero-filling growth. */
    method Truncate(size: int) returns (r: IoResult)
      modifies this
      ensures r == if size < 0 then Panicked else Done
      ensures r.Panicked? ==> contents == old(contents)
      ensures r.Done? ==>
        && |contents| == size
        && (forall k :: 0 <= k < size && k < |old(contents)| ==> contents[k] == old(contents)[k])
        && (forall k :: |old(contents)| <= k < size ==> contents[k] == 0)
      ensures r.Done? ==> contents == Truncated(old(contents), size)
    {
      if size < 0 {
        return Panicked;
      }
      if size <= |contents| {
        contents := contents[..size];
      } else {
        contents := contents + Zeros(size - |contents|);
      }
      r := Done;
    }

    /** `file_size`: the length of the vector. */
    method FileSize() returns (n: int)
      ensures n == |contents|
    {
      n := |contents|;
    }

    /** `check_reserved_lock`: no other connection ever holds a lock on a memory file. */
    method CheckReservedLock() returns (reserved: int)
      ensures reserved == 0
    {
      reserved := 0;
    }

    /** `sector_size`. */
    method SectorSize() returns (n: int)
      ensures n == 1024
    {
      n := 1024;
    }

    /** `device_characteristics`: atomic, append-safe, sequential, powersafe-overwrite writes. */
    method DeviceCharacteristics() returns (flags: int)
      ensures flags == IoCapAtomic + IoCapSafeAppend + IoCapSequential + IoCapPowersafeOverwrite
    {
      flags := 0x1601;
    }

    /** `shm_map`: shared memory is not supported. */
    method ShmMap() returns (r: IoResult)
      ensures r == Failed(SqliteIoErrShmMap)
    {
      r := Failed(5386);
    }

    /** `shm_lock`: shared memory is not supported. */
    method ShmLock() returns (r: IoResult)
      ensures r == Failed(SqliteIoErrShmLock)
    {
      r := Failed(5130);
    }
  }

  /** `MemVfs::delete`: a memory file cannot be deleted. */
  method Delete() returns (r: IoResult)
    ensures r == Failed(SqliteIoErrDelete)
  {
    r := Failed(2570);
  }
}
