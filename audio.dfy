/**
 * The playable sounds of Audio/SimpleAudioSource.cs and PooledAudioSource.cs.
 * A simple source owns one OpenAL source; a pooled source owns several
 * sources sharing one buffer and plays them in turn, so that a sound can
 * overlap itself.
 *
 * The OpenAL device is a class that hands out fresh names and records the
 * calls made on it.  Loading and uploading the samples (LoadData,
 * GetALFormat, AL.BufferData) and the source settings (pitch, gain,
 * position, velocity, looping) are not modelled here; the Wave module
 * models LoadData.
 */
module Audio {

  /** The OpenAL device: names for new sources and buffers, and a record of the calls that use them. */
  class Device {
    var nextName: int
    /** AL.SourcePlay calls, in order. */
    ghost var played: seq<int>
    /** AL.DeleteSource calls, in order. */
    ghost var deletedSources: seq<int>
    /** AL.DeleteBuffer calls, in order. */
    ghost var deletedBuffers: seq<int>

    constructor()
      ensures nextName == 1 && played == [] && deletedSources == [] && deletedBuffers == []
    {
      nextName := 1;
      played := [];
      deletedSources := [];
      deletedBuffers := [];
    }

    /** AL.GenSource / AL.GenBuffer: a name not handed out before. */
    method GenName() returns (name: int)
      modifies this`nextName
      ensures name == old(nextName) && nextName == name + 1
    {
      name := nextName;
      nextName := nextName + 1;
    }

    method SourcePlay(source: int)
      modifies this`played
      ensures played == old(played) + [source]
    {
      played := played + [source];
    }

    method DeleteSource(source: int)
      modifies this`deletedSources
      ensures deletedSources == old(deletedSources) + [source]
    {
      deletedSources := deletedSources + [source];
    }

    method DeleteBuffer(buffer: int)
      modifies this`deletedBuffers
      ensures deletedBuffers == old(deletedBuffers) + [buffer]
    {
      deletedBuffers := deletedBuffers + [buffer];
    }
  }

  /** The names first, first + 1, ..., first + n - 1. */
  function Names(first: int, n: nat): (r: seq<int>)
    ensures |r| == n && forall k :: 0 <= k < n ==> r[k] == first + k
  {
    if n == 0 then [] else Names(first, n - 1) + [first + n - 1]
  }

  class SimpleAudioSource {
    const device: Device
    const path: string
    const sourceHandle: int
    const bufferHandle: int
    var disposed: bool

    /** SimpleAudioSource.cs:12-33: one source and one buffer. */
    constructor(path: string, device: Device)
      modifies device`nextName
      ensures this.path == path && this.device == device && !disposed
      ensures sourceHandle == old(device.nextName) && bufferHandle == sourceHandle + 1
      ensures device.nextName == old(device.nextName) + 2
    {
      var source := device.GenName();
      var buffer := device.GenName();
      this.path := path;
      this.device := device;
      sourceHandle := source;
      bufferHandle := buffer;
      disposed := false;
    }

    /** SimpleAudioSource.cs:57-60. */
    method Play()
      modifies device`played
      ensures device.played == old(device.played) + [sourceHandle]
    {
      device.SourcePlay(sourceHandle);
    }

    /** SimpleAudioSource.cs:40-55: buffer and source are deleted on the first call only. */
    method Dispose()
      modifies this`disposed, device`deletedBuffers, device`deletedSources
      ensures disposed
      ensures old(disposed) ==>
        device.deletedBuffers == old(device.deletedBuffers) && device.deletedSources == old(device.deletedSources)
      ensures !old(disposed) ==>
        device.deletedBuffers == old(device.deletedBuffers) + [bufferHandle] &&
        device.deletedSources == old(device.deletedSources) + [sourceHandle]
    {
      if disposed {
        return;
      }
      device.DeleteBuffer(bufferHandle);
      device.DeleteSource(sourceHandle);
      disposed := true;
    }
  }

  /** PooledAudioSource.cs:75-77: the cursor after one Play in a pool of n sources. */
  function Next(cursor: int, n: int): (r: int)
    ensures n >= 1 && 0 <= cursor < n ==> 0 <= r < n
  {
    if cursor + 1 >= n then 0 else cursor + 1
  }

  /** The cursor after k Plays. */
  function Cursor(cursor: int, n: int, k: nat): int
  {
    if k == 0 then cursor else Next(Cursor(cursor, n, k - 1), n)
  }

  /** The pool positions k consecutive Plays start, in order. */
  function Rotation(cursor: int, n: int, k: nat): (r: seq<int>)
    ensures |r| == k
  {
    if k == 0 then [] else Rotation(cursor, n, k - 1) + [Cursor(cursor, n, k - 1)]
  }

  /** Position x of the ring of n, for 0 <= x < 2n. */
  function Wrap(x: int, n: int): int
  {
    if x >= n then x - n else x
  }

  /** Within the pool, k <= n Plays move the cursor k places round the ring, the j-th Play using position cursor + j. */
  lemma {:induction false} RotationClosedForm(cursor: int, n: int, k: nat)
    requires 0 <= cursor < n && k <= n
    ensures Cursor(cursor, n, k) == Wrap(cursor + k, n)
    ensures forall j :: 0 <= j < k ==> Rotation(cursor, n, k)[j] == Wrap(cursor + j, n)
  {
    if k > 0 {
      RotationClosedForm(cursor, n, k - 1);
    }
  }

  /**
   * A pool of n >= 1 sources played n times in a row plays every source
   * exactly once, in ring order from the cursor, and ends where it began.
   */
  lemma FullRotation(cursor: int, n: int)
    requires 0 <= cursor < n
    ensures Cursor(cursor, n, n) == cursor
    ensures forall i :: 0 <= i < n ==> i in Rotation(cursor, n, n)
    ensures forall j1, j2 :: 0 <= j1 < j2 < n ==> Rotation(cursor, n, n)[j1] != Rotation(cursor, n, n)[j2]
  {
    RotationClosedForm(cursor, n, n);
    var r := Rotation(cursor, n, n);
    forall i | 0 <= i < n
      ensures i in r
    {
      var j := if i >= cursor then i - cursor else i - cursor + n;
      assert r[j] == i;
    }
  }

  /** PooledAudioSource.cs:13: the default pool size. */
  const DefaultPoolSize: nat := 4

  class PooledAudioSource {
    const device: Device
    const path: string
    const bufferHandle: int
    const sourceHandles: array<int>
    var currentSource: int
    var disposed: bool

    /** The cursor is a position of the pool (0 for an empty pool, which never plays). */
    ghost predicate Valid()
      reads this
    {
      0 <= currentSource && (currentSource < sourceHandles.Length || currentSource == 0)
    }

    /**
     * PooledAudioSource.cs:13-31: one buffer, then poolSize sources created
     * in a loop.  A negative pool size would throw when the array is made.
     */
    constructor(path: string, device: Device, poolSize: nat := DefaultPoolSize)
      modifies device`nextName
      ensures this.path == path && this.device == device && !disposed && Valid()
      ensures fresh(sourceHandles) && sourceHandles.Length == poolSize && currentSource == 0
      ensures bufferHandle == old(device.nextName)
      ensures sourceHandles[..] == Names(bufferHandle + 1, poolSize)
      ensures device.nextName == old(device.nextName) + 1 + poolSize
    {
      var buffer := device.GenName();
      var handles := new int[poolSize];
      for i := 0 to poolSize
        invariant device.nextName == buffer + 1 + i
        invariant handles[..i] == Names(buffer + 1, i)
      {
        var h := device.GenName();
        handles[i] := h;
        assert handles[..i + 1] == handles[..i] + [h];
      }
      assert handles[..] == handles[..poolSize];
      this.path := path;
      this.device := device;
      bufferHandle := buffer;
      sourceHandles := handles;
      currentSource := 0;
      disposed := false;
    }

    /**
     * PooledAudioSource.cs:71-78: play the source under the cursor and move
     * the cursor on, wrapping at the end of the pool.  An empty pool throws
     * IndexOutOfRangeException; the model reports it as `played == false`.
     */
    method Play() returns (played: bool)
      requires Valid()
      modifies this`currentSource, device`played
      ensures Valid()
      ensures played <==> sourceHandles.Length > 0
      ensures played ==>
        device.played == old(device.played) + [sourceHandles[old(currentSource)]] &&
        currentSource == Next(old(currentSource), sourceHandles.Length)
      ensures !played ==> device.played == old(device.played) && currentSource == old(currentSource)
    {
      if sourceHandles.Length == 0 {
        return false;
      }
      device.SourcePlay(sourceHandles[currentSource]);
      currentSource := currentSource + 1;
      if currentSource >= sourceHandles.Length {
        currentSource := 0;
      }
      played := true;
    }

    /** PooledAudioSource.cs:52-69: the buffer and every source are deleted on the first call only. */
    method Dispose()
      modifies this`disposed, device`deletedBuffers, device`deletedSources
      ensures disposed
      ensures old(disposed) ==>
        device.deletedBuffers == old(device.deletedBuffers) && device.deletedSources == old(device.deletedSources)
      ensures !old(disposed) ==>
        device.deletedBuffers == old(device.deletedBuffers) + [bufferHandle] &&
        device.deletedSources == old(device.deletedSources) + sourceHandles[..]
    {
      if disposed {
        return;
      }
      device.DeleteBuffer(bufferHandle);
      for i := 0 to sourceHandles.Length
        invariant device.deletedSources == old(device.deletedSources) + sourceHandles[..i]
        invariant device.deletedBuffers == old(device.deletedBuffers) + [bufferHandle]
      {
        device.DeleteSource(sourceHandles[i]);
        assert sourceHandles[..i + 1] == sourceHandles[..i] + [sourceHandles[i]];
      }
      assert sourceHandles[..] == sourceHandles[..sourceHandles.Length];
      disposed := true;
    }
  }

  /** AudioSource.cs:115: an AudioSource is one of the two kinds. */
  datatype AudioSource = Simple(simple: SimpleAudioSource) | Pooled(pooled: PooledAudioSource)
}
