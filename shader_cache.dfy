/**
 * `src/shader_cache.cpp`: shader modules cached by path and shared by reference
 * count. A path is loaded once, even when loading fails; releasing the last
 * reference forgets the module and destroys it.
 *
 * Reading the file and creating the module (`do_load`) are not modelled beyond the
 * rounding of the code size: `load` takes what `do_load` returned as a parameter.
 */
module ShaderCaching {
  import opened Vk

  /** A `uint32_t` value. */
  newtype Uint32 = x: int | 0 <= x < 0x1_0000_0000

  /**
   * `(length + 3) & ~3` on the `uint32_t` file length: the sum wraps modulo 2^32 and the
   * mask clears its two low bits, giving the code size in whole 32-bit words.
   */
  function CodeSize(length: Uint32): (size: Uint32)
    ensures size % 4 == 0
    ensures length <= 0xFFFF_FFFC ==> length as int <= size as int < length as int + 4
    ensures length > 0xFFFF_FFFC ==> size == 0
  {
    var sum := (length as int + 3) % 0x1_0000_0000;
    (sum - sum % 4) as Uint32
  }

  /** The zero-filled word buffer `do_load` reads the file into: `code_size / 4` words. */
  function ProgramWords(length: Uint32): (words: seq<Uint32>)
    ensures 4 * |words| == CodeSize(length) as int
    ensures forall i | 0 <= i < |words| :: words[i] == 0
    ensures length <= 0xFFFF_FFFC ==> 4 * |words| >= length as int
  {
    seq(CodeSize(length) as int / 4, i => 0)
  }

  // ---------------------------------------------------------------------------
  // The key order of `std::map<std::string, ...>`

  /** `a < b` for `std::string`: character by character, a proper prefix first. */
  predicate StrLess(a: string, b: string)
    decreases |a|
  {
    if |a| == 0 then |b| > 0
    else if |b| == 0 then false
    else if a[0] != b[0] then a[0] < b[0]
    else StrLess(a[1..], b[1..])
  }

  lemma {:induction false} StrLessIrreflexive(a: string)
    ensures !StrLess(a, a)
    decreases |a|
  {
    if |a| > 0 {
      StrLessIrreflexive(a[1..]);
    }
  }

  lemma {:induction false} StrLessTransitive(a: string, b: string, c: string)
    requires StrLess(a, b) && StrLess(b, c)
    ensures StrLess(a, c)
    decreases |a|
  {
    if |a| > 0 && a[0] == b[0] && b[0] == c[0] {
      StrLessTransitive(a[1..], b[1..], c[1..]);
    }
  }

  lemma {:induction false} StrLessTotal(a: string, b: string)
    requires a != b
    ensures StrLess(a, b) || StrLess(b, a)
    decreases |a|
  {
    if |a| > 0 && |b| > 0 && a[0] == b[0] {
      assert a == [a[0]] + a[1..] && b == [b[0]] + b[1..];
      StrLessTotal(a[1..], b[1..]);
    }
  }

  /** The first of a non-empty set of keys in map order. */
  ghost function Least(keys: set<string>): (m: string)
    requires keys != {}
    ensures m in keys && forall k | k in keys :: !StrLess(k, m)
    decreases keys
  {
    var x :| x in keys;
    if keys == {x} then
      StrLessIrreflexive(x);
      x
    else
      var r := Least(keys - {x});
      if StrLess(x, r) then
        forall k | k in keys - {x}
          ensures !StrLess(k, x)
        {
          if StrLess(k, x) {
            StrLessTransitive(k, x, r);
          }
        }
        StrLessIrreflexive(x);
        x
      else
        r
  }

  /** Two keys that are both first are the same key. */
  lemma LeastUnique(keys: set<string>, a: string, b: string)
    requires a in keys && b in keys
    requires forall k | k in keys :: !StrLess(k, a)
    requires forall k | k in keys :: !StrLess(k, b)
    ensures a == b
  {
    if a != b {
      StrLessTotal(a, b);
    }
  }

  /** The paths cached with module `shader`. */
  function PathsOf(cache: map<string, Handle>, shader: Handle): set<string> {
    set k | k in cache && cache[k] == shader
  }

  // ---------------------------------------------------------------------------
  // Cache state and the two operations on it

  /** `_cache` and `_ref_counts`. */
  datatype CacheState = CacheState(cache: map<string, Handle>, refCounts: map<Handle, int>)

  /** `_ref_counts[shader]`, which reads an absent count as 0. */
  function RefCount(refCounts: map<Handle, int>, shader: Handle): int {
    if shader in refCounts then refCounts[shader] else 0
  }

  /**
   * The state after `load(path)` when `do_load` would return `loaded`: a cached path keeps
   * the cache as it is; a new path is stored with `loaded`, null or not. A non-null
   * result gains one reference.
   */
  function LoadResult(s: CacheState, path: string, loaded: Handle): (r: (CacheState, Handle)) {
    var shader := if path in s.cache then s.cache[path] else loaded;
    var cache := if path in s.cache then s.cache else s.cache[path := loaded];
    var refCounts := if shader != NullHandle then s.refCounts[shader := RefCount(s.refCounts, shader) + 1] else s.refCounts;
    (CacheState(cache, refCounts), shader)
  }

  /**
   * The state after `release(shader)`: null changes nothing; otherwise the count drops
   * by one (an absent count becomes -1), and at 0 the count is removed together with the
   * first cached path, in key order, that holds the module.
   */
  ghost function Released(s: CacheState, shader: Handle): CacheState {
    if shader == NullHandle then s
    else if RefCount(s.refCounts, shader) - 1 != 0 then
      CacheState(s.cache, s.refCounts[shader := RefCount(s.refCounts, shader) - 1])
    else if PathsOf(s.cache, shader) == {} then
      CacheState(s.cache, s.refCounts - {shader})
    else
      CacheState(s.cache - {Least(PathsOf(s.cache, shader))}, s.refCounts - {shader})
  }

  /**
   * Loading a new path that yields a module no one else holds, then releasing that
   * module, leaves the cache and the counts as they were.
   */
  lemma LoadThenRelease(s: CacheState, path: string, shader: Handle)
    requires path !in s.cache && shader != NullHandle
    requires shader !in s.refCounts && forall k | k in s.cache :: s.cache[k] != shader
    ensures LoadResult(s, path, shader).1 == shader
    ensures Released(LoadResult(s, path, shader).0, shader) == s
  {
    var t := LoadResult(s, path, shader).0;
    assert RefCount(t.refCounts, shader) == 1;
    assert PathsOf(t.cache, shader) == {path};
    assert t.cache - {path} == s.cache;
    assert t.refCounts - {shader} == s.refCounts;
  }

  /**
   * When the last reference goes, exactly one path holding the module is forgotten (if
   * any holds it) and every other path stays cached with its module.
   */
  lemma ReleaseForgetsOnePath(s: CacheState, shader: Handle)
    requires shader != NullHandle && RefCount(s.refCounts, shader) == 1
    requires PathsOf(s.cache, shader) != {}
    ensures shader !in Released(s, shader).refCounts
    ensures |Released(s, shader).cache| == |s.cache| - 1
    ensures exists p | p in s.cache && s.cache[p] == shader :: Released(s, shader).cache == s.cache - {p}
  {
    var p := Least(PathsOf(s.cache, shader));
    assert p in s.cache;
  }

  /** While references remain, a release keeps every cached path. */
  lemma ReleaseKeepsCacheWhileReferenced(s: CacheState, shader: Handle)
    requires shader != NullHandle && RefCount(s.refCounts, shader) != 1
    ensures Released(s, shader).cache == s.cache
    ensures RefCount(Released(s, shader).refCounts, shader) == RefCount(s.refCounts, shader) - 1
  {
  }

  /** `ShaderCache`. */
  class ShaderCache {
    var cache: map<string, Handle>
    var refCounts: map<Handle, int>
    /** Paths handed to `do_load`, in order. */
    ghost var loaded: seq<string>
    /** Modules passed to `vkDestroyShaderModule`, in order. */
    ghost var destroyed: seq<Handle>

    constructor ()
      ensures cache == map[] && refCounts == map[] && loaded == [] && destroyed == []
    {
      cache := map[];
      refCounts := map[];
      loaded := [];
      destroyed := [];
    }

    function State(): CacheState
      reads this
    {
      CacheState(cache, refCounts)
    }

    /**
     * `load(path)`; `fromDisk` is what `do_load(path)` returns, used only when the path
     * is not cached. A failed load (null) is cached too, so the path is never retried.
     */
    method Load(path: string, fromDisk: Handle) returns (shader: Handle)
      modifies this
      ensures (State(), shader) == LoadResult(old(State()), path, fromDisk)
      ensures path in old(cache) ==> loaded == old(loaded)
      ensures path !in old(cache) ==> loaded == old(loaded) + [path]
      ensures destroyed == old(destroyed)
    {
      if path in cache {
        shader := cache[path];
      } else {
        loaded := loaded + [path];
        shader := fromDisk;
        cache := cache[path := shader];
      }
      if shader != NullHandle {
        refCounts := refCounts[shader := RefCount(refCounts, shader) + 1];
      }
    }

    /**
     * `release(shader)`; when the count reaches 0 the cache is scanned in key order and
     * the first path holding the module is erased before the module is destroyed.
     */
    method Release(shader: Handle)
      modifies this
      ensures State() == Released(old(State()), shader)
      ensures shader != NullHandle && RefCount(old(refCounts), shader) == 1 ==> destroyed == old(destroyed) + [shader]
      ensures !(shader != NullHandle && RefCount(old(refCounts), shader) == 1) ==> destroyed == old(destroyed)
      ensures loaded == old(loaded)
    {
      if shader == NullHandle {
        return;
      }
      var count := RefCount(refCounts, shader) - 1;
      if count != 0 {
        refCounts := refCounts[shader := count];
        return;
      }
      refCounts := refCounts - {shader};
      var remaining := cache.Keys;
      while remaining != {}
        invariant remaining <= cache.Keys && cache == old(cache)
        invariant forall k | k in cache && k !in remaining :: cache[k] != shader
        invariant refCounts == old(refCounts) - {shader} && loaded == old(loaded) && destroyed == old(destroyed)
        decreases remaining
      {
        ghost var first := Least(remaining);
        var key :| key in remaining && forall k | k in remaining :: !StrLess(k, key);
        if cache[key] == shader {
          ghost var paths := PathsOf(cache, shader);
          assert key in paths;
          LeastUnique(paths, key, Least(paths));
          cache := cache - {key};
          break;
        }
        remaining := remaining - {key};
      }
      if cache == old(cache) {
        assert PathsOf(cache, shader) == {};
      }
      destroyed := destroyed + [shader];
    }
  }
}
