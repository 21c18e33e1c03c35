/**
 * The asset caches of Content.cs and Content/ContentManager.cs.  An asset is
 * loaded the first time its path is asked for and remembered under the full
 * path (the assets directory followed by the path); later requests return
 * the remembered object.  Disposing the cache disposes every texture it
 * loaded, once.
 */
module Assets {
  import opened Textures
  import opened Audio

  /** Content.cs:42 and ContentManager.cs:44, 54: the cache key. */
  function FullPath(assetsPath: string, path: string): (key: string)
    ensures |key| == |assetsPath| + |path| && key[..|assetsPath|] == assetsPath && key[|assetsPath|..] == path
  {
    assetsPath + path
  }

  /** Distinct paths under the same assets directory have distinct keys. */
  lemma FullPathInjective(assetsPath: string, p: string, q: string)
    requires FullPath(assetsPath, p) == FullPath(assetsPath, q)
    ensures p == q
  {
    assert p == FullPath(assetsPath, p)[|assetsPath|..];
  }

  /** ContentManager.cs:58-62: a single source for one voice, a pool for more. */
  predicate IsPooled(sourceCount: int)
  {
    sourceCount > 1
  }

  /** Every cached texture is in a consistent disposal state. */
  ghost predicate TexturesValid(textures: map<string, Texture2D>)
    reads textures.Values
  {
    forall key :: key in textures ==> textures[key].Valid()
  }

  /** Dispose every texture of the cache, in any order (Content.cs:28-29, ContentManager.cs:30-31). */
  method DisposeAll(textures: map<string, Texture2D>)
    requires TexturesValid(textures)
    modifies textures.Values
    ensures TexturesValid(textures)
    ensures forall key :: key in textures ==> textures[key].disposed && textures[key].deletions == 1
  {
    var todo := textures.Keys;
    while todo != {}
      invariant todo <= textures.Keys
      invariant TexturesValid(textures)
      invariant forall key :: key in textures && key !in todo ==> textures[key].disposed
      decreases |todo|
    {
      var key :| key in todo;
      textures[key].Dispose();
      todo := todo - {key};
    }
  }

  /** Content.cs: a texture cache. */
  class Content {
    const assetsPath: string
    var textures: map<string, Texture2D>
    var disposed: bool

    ghost predicate Valid()
      reads this, textures.Values
    {
      TexturesValid(textures)
    }

    /** Content.cs:11-14. */
    constructor(assetsPath: string)
      ensures this.assetsPath == assetsPath && textures == map[] && !disposed && Valid()
    {
      this.assetsPath := assetsPath;
      textures := map[];
      disposed := false;
    }

    /**
     * Content.cs:40-48: a hit returns the cached texture and loads nothing;
     * a miss loads the texture from `path` (not the full key) and stores it
     * under the full key.
     */
    method GetTexture(path: string) returns (t: Texture2D)
      requires Valid()
      modifies this`textures
      ensures Valid()
      ensures FullPath(assetsPath, path) in textures && t == textures[FullPath(assetsPath, path)]
      ensures FullPath(assetsPath, path) in old(textures) ==>
        t == old(textures)[FullPath(assetsPath, path)] && textures == old(textures)
      ensures FullPath(assetsPath, path) !in old(textures) ==>
        fresh(t) && t.origin == ImageFile(path) && !t.disposed &&
        textures == old(textures)[FullPath(assetsPath, path) := t]
    {
      var fullPath := FullPath(assetsPath, path);
      if fullPath in textures {
        return textures[fullPath];
      }
      var loaded := new Texture2D.Load(path);
      textures := textures[fullPath := loaded];
      t := textures[fullPath];
    }

    /** Content.cs:21-38: every cached texture is disposed on the first call only. */
    method Dispose()
      requires Valid()
      modifies this`disposed, textures.Values
      ensures Valid() && disposed && textures == old(textures)
      ensures !old(disposed) ==> forall key :: key in textures ==> textures[key].disposed && textures[key].deletions == 1
      ensures old(disposed) ==> forall key :: key in textures ==> textures[key].deletions == old(textures[key].deletions)
    {
      if disposed {
        return;
      }
      DisposeAll(textures);
      disposed := true;
    }
  }

  /** Content/ContentManager.cs: caches of textures and of audio sources. */
  class ContentManager {
    const assetsPath: string
    const device: Device
    var textures: map<string, Texture2D>
    var audioSources: map<string, AudioSource>
    var disposed: bool

    ghost predicate Valid()
      reads this, textures.Values
    {
      TexturesValid(textures)
    }

    /** ContentManager.cs:13-16; the OpenAL device the sources are made on is an input. */
    constructor(assetsPath: string, device: Device)
      ensures this.assetsPath == assetsPath && this.device == device
      ensures textures == map[] && audioSources == map[] && !disposed && Valid()
    {
      this.assetsPath := assetsPath;
      this.device := device;
      textures := map[];
      audioSources := map[];
      disposed := false;
    }

    /** ContentManager.cs:42-50: the same caching as Content.GetTexture. */
    method LoadTexture(path: string) returns (t: Texture2D)
      requires Valid()
      modifies this`textures
      ensures Valid()
      ensures FullPath(assetsPath, path) in textures && t == textures[FullPath(assetsPath, path)]
      ensures FullPath(assetsPath, path) in old(textures) ==>
        t == old(textures)[FullPath(assetsPath, path)] && textures == old(textures)
      ensures FullPath(assetsPath, path) !in old(textures) ==>
        fresh(t) && t.origin == ImageFile(path) && !t.disposed &&
        textures == old(textures)[FullPath(assetsPath, path) := t]
    {
      var fullPath := FullPath(assetsPath, path);
      if fullPath in textures {
        return textures[fullPath];
      }
      var loaded := new Texture2D.Load(path);
      textures := textures[fullPath := loaded];
      t := textures[fullPath];
    }

    /**
     * ContentManager.cs:52-66: a hit returns the cached source whatever
     * `sourceCount` this call passes; a miss makes a simple source for a
     * count of at most 1 and a pool of `sourceCount` sources otherwise.
     */
    method LoadAudio(path: string, sourceCount: int := 1) returns (source: AudioSource)
      modifies this`audioSources, device`nextName
      ensures FullPath(assetsPath, path) in audioSources && source == audioSources[FullPath(assetsPath, path)]
      ensures FullPath(assetsPath, path) in old(audioSources) ==>
        source == old(audioSources)[FullPath(assetsPath, path)] && audioSources == old(audioSources) &&
        device.nextName == old(device.nextName)
      ensures FullPath(assetsPath, path) !in old(audioSources) ==>
        audioSources == old(audioSources)[FullPath(assetsPath, path) := source]
      ensures FullPath(assetsPath, path) !in old(audioSources) && IsPooled(sourceCount) ==>
        source.Pooled? && fresh(source.pooled) && source.pooled.path == path &&
        source.pooled.sourceHandles.Length == sourceCount
      ensures FullPath(assetsPath, path) !in old(audioSources) && !IsPooled(sourceCount) ==>
        source.Simple? && fresh(source.simple) && source.simple.path == path
      ensures textures == old(textures)
    {
      var fullPath := FullPath(assetsPath, path);
      if fullPath in audioSources {
        return audioSources[fullPath];
      }
      if sourceCount <= 1 {
        var simple := new SimpleAudioSource(path, device);
        source := Simple(simple);
      } else {
        var pooled := new PooledAudioSource(path, device, sourceCount);
        source := Pooled(pooled);
      }
      audioSources := audioSources[fullPath := source];
    }

    /** ContentManager.cs:23-40: every cached texture is disposed on the first call only; audio sources are not. */
    method Dispose()
      requires Valid()
      modifies this`disposed, textures.Values
      ensures Valid() && disposed && textures == old(textures)
      ensures !old(disposed) ==> forall key :: key in textures ==> textures[key].disposed && textures[key].deletions == 1
      ensures old(disposed) ==> forall key :: key in textures ==> textures[key].deletions == old(textures[key].deletions)
    {
      if disposed {
        return;
      }
      DisposeAll(textures);
      disposed := true;
    }
  }
}
