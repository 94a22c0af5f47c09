/**
 * The bump arena of cool_memory.c. Addresses are byte offsets from the
 * arena's base; the `Assert` of `PushMemory_` is the `ok` result (false
 * means the process aborts at that point).
 */
module Memory {

  datatype Option<T> = None | Some(value: T)

  /** A monotone offset allocator over `size` bytes, of which `used` are handed out. */
  class MemoryArena {
    var used: nat
    var size: nat

    /** `CreateMemoryArena`: an empty arena of the requested size. */
    constructor Create(sizeInBytes: nat)
      ensures used == 0 && size == sizeInBytes
    {
      used := 0;
      size := sizeInBytes;
    }

    /**
     * `PushMemory_`: bump `used` by n, then check strictly that it stays
     * below `size`. The block handed out starts where `used` was.
     */
    method Push(n: nat) returns (ok: bool, offset: nat)
      modifies this`used
      ensures used == old(used) + n && size == old(size)
      ensures ok <==> used < size
      ensures offset == old(used) && offset + n == used
    {
      used := used + n;
      ok := used < size;
      offset := used - n;
    }

    /** `PushStruct`: room for one value of `typeSize` bytes. */
    method PushStruct(typeSize: nat) returns (ok: bool, offset: nat)
      modifies this`used
      ensures used == old(used) + typeSize && size == old(size)
      ensures ok <==> used < size
      ensures offset == old(used)
    {
      ok, offset := Push(typeSize);
    }

    /** `PushArray`: room for `count` values of `typeSize` bytes each. */
    method PushArray(typeSize: nat, count: nat) returns (ok: bool, offset: nat)
      modifies this`used
      ensures used == old(used) + typeSize * count && size == old(size)
      ensures ok <==> used < size
      ensures offset == old(used)
    {
      ok, offset := Push(typeSize * count);
    }
  }

  function Sum(ns: seq<nat>): nat {
    if ns == [] then 0 else ns[0] + Sum(ns[1..])
  }

  /**
   * The offsets a run of pushes hands out, starting from `used` in an arena
   * of `size` bytes; `None` when one of the asserts fires.
   */
  function PushRun(used: nat, size: nat, ns: seq<nat>): Option<seq<nat>>
    decreases |ns|
  {
    if ns == [] then Some([])
    else if used + ns[0] < size then
      match PushRun(used + ns[0], size, ns[1..])
      case None => None
      case Some(rest) => Some([used] + rest)
    else None
  }

  /**
   * A run of pushes succeeds exactly when the total fits strictly below the
   * arena size; the blocks are then adjacent, in increasing order, and none
   * reaches the last byte of the arena.
   */
  lemma {:induction false} PushRunBlocks(used: nat, size: nat, ns: seq<nat>)
    ensures PushRun(used, size, ns).Some? <==> (ns == [] || used + Sum(ns) < size)
    ensures PushRun(used, size, ns).Some? ==>
      var offs := PushRun(used, size, ns).value;
      && |offs| == |ns|
      && (ns != [] ==> offs[0] == used)
      && (forall k :: 0 <= k < |ns| - 1 ==> offs[k + 1] == offs[k] + ns[k])
      && (forall k :: 0 <= k < |ns| ==> used <= offs[k] && offs[k] + ns[k] < size)
    decreases |ns|
  {
    if ns != [] {
      PushRunBlocks(used + ns[0], size, ns[1..]);
      var rest := PushRun(used + ns[0], size, ns[1..]);
      if rest.Some? && used + ns[0] < size {
        var offs := [used] + rest.value;
        forall k | 0 <= k < |ns| - 1
          ensures offs[k + 1] == offs[k] + ns[k]
        {
          if k > 0 {
            assert offs[k + 1] == rest.value[k] && offs[k] == rest.value[k - 1];
          }
        }
      }
    }
  }

  /** Blocks handed out by a successful run never overlap. */
  lemma PushRunDisjoint(used: nat, size: nat, ns: seq<nat>, j: nat, k: nat)
    requires PushRun(used, size, ns).Some?
    requires j < k < |ns|
    ensures var offs := PushRun(used, size, ns).value; |offs| == |ns| && offs[j] + ns[j] <= offs[k]
    decreases k - j
  {
    PushRunBlocks(used, size, ns);
    if j + 1 < k {
      PushRunDisjoint(used, size, ns, j + 1, k);
    }
  }

  /** `size_t` is 64 bits wide in the program's build. */
  const SizeTModulus: nat := 0x1_0000_0000_0000_0000

  datatype Pushed = Pushed(passes: bool, used: nat, offset: nat)

  /**
   * `PushMemory_` with the wrap-around of `size_t`: `used += size` and
   * `base + used - size` are computed modulo 2^64.
   */
  function PushWrapped(used: nat, size: nat, n: nat): (r: Pushed)
    requires used < SizeTModulus && n < SizeTModulus
    ensures r.used < SizeTModulus && r.offset < SizeTModulus
    ensures used + n < SizeTModulus ==> r.used == used + n && r.offset == used
  {
    var u := (used + n) % SizeTModulus;
    Pushed(u < size, u, (u - n) % SizeTModulus)
  }

  /**
   * With wrap-around the assert lets a request far larger than the arena
   * through: 16 bytes used, a request of 2^64 - 8 bytes, and the new `used`
   * (8) is below the size, so the block handed out runs past the arena end
   * and the next push overlaps the earlier ones.
   */
  lemma WrappedPushAcceptsOversize()
    ensures var r := PushWrapped(16, 1024, SizeTModulus - 8);
      r.passes && r.offset == 16 && r.offset + (SizeTModulus - 8) > 1024 && r.used < 16
  {
    var u := (16 + (SizeTModulus - 8)) % SizeTModulus;
    assert u == 8;
    assert (u - (SizeTModulus - 8)) % SizeTModulus == 16;
  }
}
