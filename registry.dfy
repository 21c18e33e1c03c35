/**
 * Pure model of the entity registry of World.cs.
 *
 * A registry state holds the three kinds of membership list (update list, draw
 * list, one list per tag name), the slots every object caches about its own
 * positions (GameObject.cs:7-12), the id counter, the four request queues and a
 * ghost trace of the lifecycle hooks the registry runs.  Every operation of
 * World.cs is a function on this state; the class `Scene.World` is proved to
 * follow these functions step by step.
 *
 * Exceptions the source would raise (Dictionary.Add on a duplicate key, an
 * unguarded dictionary read, a list index out of range) are preconditions,
 * written as the `...Defined` predicates.  The stronger `...Sound` predicates
 * are what the slot invariant needs.
 */
module Registry {
  import opened Wrappers

  /** What World.cs caches on a GameObject: its slots and its identity. */
  datatype Cache = Cache(
    updateIndex: int,              // -1 when not in the update list
    drawIndex: int,                // -1 when not in the draw list
    tagIndices: map<string, int>,  // tag name -> slot in that tag's list
    admitted: bool,                // GameObject.World refers to this registry
    worldId: int)

  /** The cache of a newly constructed GameObject (GameObject.cs:7-12). */
  const FreshCache := Cache(-1, -1, map[], false, 0)

  datatype AddRequest<O> = AddRequest(obj: O, update: bool, draw: bool)
  datatype TagRequest<O> = TagRequest(obj: O, tagName: string)

  /** The membership lists: update list, draw list and the tag table. */
  datatype Lists<O> = Lists(update: seq<O>, draw: seq<O>, tags: map<string, seq<O>>)

  /** A lifecycle hook call, with the lists as they were when the hook ran. */
  datatype Hook = OnAdd | OnRemove | OnUpdate | OnDraw
  datatype Event<O> = Event(hook: Hook, obj: O, view: Lists<O>)

  datatype State<O(==)> = State(
    lists: Lists<O>,
    cache: map<O, Cache>,
    nextId: int,
    addQueue: seq<AddRequest<O>>,
    removeQueue: seq<O>,
    tagAddQueue: seq<TagRequest<O>>,
    tagRemoveQueue: seq<TagRequest<O>>,
    trace: seq<Event<O>>)

  function Last<T>(s: seq<T>): T
    requires |s| > 0
  {
    s[|s| - 1]
  }

  /** The list of a tag name, or the empty list for an unknown name. */
  function Get<O>(tags: map<string, seq<O>>, name: string): seq<O>
  {
    if name in tags then tags[name] else []
  }

  // ---------------------------------------------------------------------------
  // Swap-remove (World.cs:36-43)
  // ---------------------------------------------------------------------------

  /**
   * RemoveFromList: the last element is copied over position `index`, the
   * list loses its last position, and the old last element is returned.
   */
  function SwapRemove<T>(list: seq<T>, index: int): (r: (seq<T>, T))
    requires 0 <= index < |list|
    ensures |r.0| == |list| - 1 && r.1 == Last(list)
    ensures forall j :: 0 <= j < |r.0| ==> r.0[j] == (if j == index then Last(list) else list[j])
  {
    (list[index := Last(list)][..|list| - 1], Last(list))
  }

  /** Swap-remove takes out exactly the element at `index`: the rest is a permutation of what is left. */
  lemma SwapRemovePermutes<T>(list: seq<T>, index: int)
    requires 0 <= index < |list|
    ensures multiset(SwapRemove(list, index).0) + multiset{list[index]} == multiset(list)
  {
    var n := |list|;
    var rest := SwapRemove(list, index).0;
    if index == n - 1 {
      assert rest == list[..n - 1];
      assert list == list[..n - 1] + [list[n - 1]];
    } else {
      var before, after := list[..index], list[index + 1..n - 1];
      assert list == before + [list[index]] + after + [Last(list)];
      assert rest == before + [Last(list)] + after;
    }
  }

  // ---------------------------------------------------------------------------
  // Well-formedness and the slot invariant
  // ---------------------------------------------------------------------------

  /** Every object the lists and queues mention has a cache entry. */
  ghost predicate Closed<O>(s: State<O>)
  {
    (forall o :: o in s.lists.update ==> o in s.cache) &&
    (forall o :: o in s.lists.draw ==> o in s.cache) &&
    (forall t, o :: t in s.lists.tags && o in s.lists.tags[t] ==> o in s.cache) &&
    (forall r :: r in s.addQueue ==> r.obj in s.cache) &&
    (forall o :: o in s.removeQueue ==> o in s.cache) &&
    (forall r :: r in s.tagAddQueue ==> r.obj in s.cache) &&
    (forall r :: r in s.tagRemoveQueue ==> r.obj in s.cache)
  }

  /**
   * The slot invariant: the slot an object caches for a list is its position
   * in that list, for the update list, the draw list and every tag list.
   */
  ghost predicate SlotsValid<O>(s: State<O>)
  {
    Closed(s) &&
    (forall i :: 0 <= i < |s.lists.update| ==> s.cache[s.lists.update[i]].updateIndex == i) &&
    (forall i :: 0 <= i < |s.lists.draw| ==> s.cache[s.lists.draw[i]].drawIndex == i) &&
    (forall t, i :: t in s.lists.tags && 0 <= i < |s.lists.tags[t]| ==>
       t in s.cache[s.lists.tags[t][i]].tagIndices && s.cache[s.lists.tags[t][i]].tagIndices[t] == i)
  }

  /** A flush step leaves the four queues, the id counter and the trace alone. */
  ghost predicate Unqueued<O>(r: State<O>, s: State<O>)
  {
    r.addQueue == s.addQueue && r.removeQueue == s.removeQueue &&
    r.tagAddQueue == s.tagAddQueue && r.tagRemoveQueue == s.tagRemoveQueue &&
    r.nextId == s.nextId && r.trace == s.trace
  }

  /** `obj` is in none of the lists. */
  ghost predicate Detached<O>(s: State<O>, obj: O)
  {
    obj !in s.lists.update && obj !in s.lists.draw &&
    forall t :: t in s.lists.tags ==> obj !in s.lists.tags[t]
  }

  // ---------------------------------------------------------------------------
  // Tagging (World.cs:63-95)
  // ---------------------------------------------------------------------------

  /** AddTag does not throw: Dictionary.Add at World.cs:69 throws for a name the object already holds. */
  ghost predicate AddTagDefined<O>(s: State<O>, obj: O, name: string)
  {
    Closed(s) && obj in s.cache && name !in s.cache[obj].tagIndices
  }

  /** AddTag: create the list lazily, cache slot = old length, append. */
  function AddTag<O(==)>(s: State<O>, obj: O, name: string): (r: State<O>)
    requires AddTagDefined(s, obj, name)
    ensures Closed(r) && Unqueued(r, s) && r.cache.Keys == s.cache.Keys
    ensures r.lists.update == s.lists.update && r.lists.draw == s.lists.draw
  {
    var list := Get(s.lists.tags, name);
    var c := s.cache[obj];
    s.(lists := s.lists.(tags := s.lists.tags[name := list + [obj]]),
       cache := s.cache[obj := c.(tagIndices := c.tagIndices[name := |list|])])
  }

  /**
   * RemoveTag does not throw: for a known name it reads the object's slot
   * unguarded (World.cs:84), and swap-removes at that slot when the list is
   * not empty (World.cs:91).
   */
  ghost predicate RemoveTagDefined<O>(s: State<O>, obj: O, name: string)
  {
    Closed(s) && obj in s.cache &&
    (name in s.lists.tags ==>
       name in s.cache[obj].tagIndices &&
       (|s.lists.tags[name]| > 0 ==> 0 <= s.cache[obj].tagIndices[name] < |s.lists.tags[name]|))
  }

  /** The object really is where its slot says: what keeps the invariant across a removal. */
  ghost predicate RemoveTagSound<O>(s: State<O>, obj: O, name: string)
  {
    Closed(s) && obj in s.cache &&
    (name in s.lists.tags ==>
       name in s.cache[obj].tagIndices &&
       0 <= s.cache[obj].tagIndices[name] < |s.lists.tags[name]| &&
       s.lists.tags[name][s.cache[obj].tagIndices[name]] == obj)
  }

  function RemoveTag<O(==)>(s: State<O>, obj: O, name: string): (r: State<O>)
    requires RemoveTagDefined(s, obj, name)
    ensures Closed(r) && Unqueued(r, s) && r.cache.Keys == s.cache.Keys
    ensures r.lists.update == s.lists.update && r.lists.draw == s.lists.draw
    ensures r.lists.tags.Keys == s.lists.tags.Keys
    // World.cs:77-81: a name with no list changes nothing
    ensures name !in s.lists.tags ==> r == s
  {
    if name !in s.lists.tags then s
    else
      var index := s.cache[obj].tagIndices[name];
      var dropped := s.cache[obj := s.cache[obj].(tagIndices := s.cache[obj].tagIndices - {name})];
      var list := s.lists.tags[name];
      if |list| == 0 then s.(cache := dropped)
      else
        var swapped := Last(list);
        s.(lists := s.lists.(tags := s.lists.tags[name := SwapRemove(list, index).0]),
           cache := dropped[swapped := dropped[swapped].(tagIndices := dropped[swapped].tagIndices[name := index])])
  }

  /**
   * AddTag appends obj to the tag's list, which exists afterwards, and gives
   * obj the slot it was appended at; no other tag and no other object's
   * cache changes (World.cs:65-70).
   */
  lemma AddTagAppends<O>(s: State<O>, obj: O, name: string)
    requires AddTagDefined(s, obj, name)
    ensures var r := AddTag(s, obj, name);
      var list := Get(s.lists.tags, name);
      r.lists.tags.Keys == s.lists.tags.Keys + {name} &&
      |r.lists.tags[name]| == |list| + 1 && r.lists.tags[name][..|list|] == list &&
      r.lists.tags[name][|list|] == obj &&
      (forall t :: t in s.lists.tags && t != name ==> r.lists.tags[t] == s.lists.tags[t]) &&
      r.cache[obj] == s.cache[obj].(tagIndices := s.cache[obj].tagIndices[name := |list|]) &&
      (forall o :: o in s.cache && o != obj ==> r.cache[o] == s.cache[o])
  {
    var list := Get(s.lists.tags, name);
    assert (list + [obj])[..|list|] == list;
  }

  /**
   * RemoveTag on a known name: an empty list stays as it is; otherwise the
   * list loses exactly the element at obj's slot.  No other tag changes, and
   * no cache but obj's and the moved last element's (World.cs:83-92).
   */
  lemma RemoveTagEffect<O>(s: State<O>, obj: O, name: string)
    requires RemoveTagDefined(s, obj, name) && name in s.lists.tags
    ensures var r := RemoveTag(s, obj, name);
      var list := s.lists.tags[name];
      (forall t :: t in s.lists.tags && t != name ==> r.lists.tags[t] == s.lists.tags[t]) &&
      (|list| == 0 ==> r.lists == s.lists) &&
      (|list| > 0 ==>
         |r.lists.tags[name]| == |list| - 1 &&
         multiset(r.lists.tags[name]) + multiset{list[s.cache[obj].tagIndices[name]]} == multiset(list)) &&
      (forall o :: (o in s.cache && o != obj && (|list| > 0 ==> o != Last(list))) ==> r.cache[o] == s.cache[o])
  {
    var list := s.lists.tags[name];
    if |list| > 0 {
      SwapRemovePermutes(list, s.cache[obj].tagIndices[name]);
    }
  }

  /** GetTagged: the live list of a tag name, empty for an unknown name (World.cs:197-202). */
  function Tagged<O(==)>(s: State<O>, name: string): (r: seq<O>)
    ensures name !in s.lists.tags ==> r == []
    ensures name in s.lists.tags ==> r == s.lists.tags[name]
    ensures SlotsValid(s) ==> forall k :: 0 <= k < |r| ==>
      r[k] in s.cache && name in s.cache[r[k]].tagIndices && s.cache[r[k]].tagIndices[name] == k
  {
    Get(s.lists.tags, name)
  }

  // ---------------------------------------------------------------------------
  // Admission (World.cs:97-120)
  // ---------------------------------------------------------------------------

  /** Admission never throws; the model only needs the object's cache entry. */
  ghost predicate AdmitDefined<O>(s: State<O>, r: AddRequest<O>)
  {
    r.obj in s.cache
  }

  /** Admission keeps the invariant only for an object not yet in a list it joins. */
  ghost predicate AdmitSound<O>(s: State<O>, r: AddRequest<O>)
  {
    Closed(s) && AdmitDefined(s, r) &&
    (r.update ==> r.obj !in s.lists.update) &&
    (r.draw ==> r.obj !in s.lists.draw)
  }

  /** One admission: set World, take the next id, join the flagged lists, run OnAdd. */
  function Admit<O(==)>(s: State<O>, r: AddRequest<O>): (a: State<O>)
    requires AdmitDefined(s, r)
    ensures Closed(s) ==> Closed(a)
    ensures a.cache.Keys == s.cache.Keys && a.nextId == s.nextId + 1
    ensures a.addQueue == s.addQueue && a.removeQueue == s.removeQueue
    ensures a.tagAddQueue == s.tagAddQueue && a.tagRemoveQueue == s.tagRemoveQueue
  {
    var obj := r.obj;
    var c0 := s.cache[obj].(admitted := true, worldId := s.nextId);
    var update := if r.update then s.lists.update + [obj] else s.lists.update;
    var c1 := if r.update then c0.(updateIndex := |update| - 1) else c0;
    var draw := if r.draw then s.lists.draw + [obj] else s.lists.draw;
    var c2 := if r.draw then c1.(drawIndex := |draw| - 1) else c1;
    var lists := s.lists.(update := update, draw := draw);
    s.(lists := lists, cache := s.cache[obj := c2], nextId := s.nextId + 1,
       trace := s.trace + [Event(OnAdd, obj, lists)])
  }

  // ---------------------------------------------------------------------------
  // Retirement (World.cs:122-148)
  // ---------------------------------------------------------------------------

  /** Retirement does not throw: each swap-remove it performs is in range. */
  ghost predicate RetireDefined<O>(s: State<O>, obj: O)
  {
    Closed(s) && obj in s.cache &&
    (s.cache[obj].updateIndex == -1 || 0 <= s.cache[obj].updateIndex < |s.lists.update|) &&
    (s.cache[obj].drawIndex == -1 || 0 <= s.cache[obj].drawIndex < |s.lists.draw|) &&
    TagSlotsInRange(s, obj, s.cache[obj].tagIndices.Keys) &&
    KeysStable(s, obj)
  }

  /**
   * World.cs:140-143 enumerates obj.TagIndices while RemoveTag edits it.
   * Removing a key leaves a .NET dictionary enumerator valid, but adding one
   * does not: when obj is the last element of a tag list, RemoveTag writes
   * its key back (World.cs:92) and the enumeration throws at its next step.
   */
  ghost predicate KeysStable<O>(s: State<O>, obj: O)
    requires obj in s.cache
  {
    forall t :: t in s.cache[obj].tagIndices && t in s.lists.tags && |s.lists.tags[t]| > 0 ==>
      Last(s.lists.tags[t]) != obj
  }

  ghost predicate TagSlotsInRange<O>(s: State<O>, obj: O, names: set<string>)
    requires obj in s.cache
  {
    forall t :: t in names && t in s.cache[obj].tagIndices && t in s.lists.tags && |s.lists.tags[t]| > 0 ==>
      0 <= s.cache[obj].tagIndices[t] < |s.lists.tags[t]|
  }

  /** Every slot `obj` caches is its true position: the object holds the memberships it claims. */
  ghost predicate Held<O>(s: State<O>, obj: O)
  {
    Closed(s) && obj in s.cache &&
    (s.cache[obj].updateIndex != -1 ==>
       0 <= s.cache[obj].updateIndex < |s.lists.update| && s.lists.update[s.cache[obj].updateIndex] == obj) &&
    (s.cache[obj].drawIndex != -1 ==>
       0 <= s.cache[obj].drawIndex < |s.lists.draw| && s.lists.draw[s.cache[obj].drawIndex] == obj) &&
    (forall t :: t in s.cache[obj].tagIndices && t in s.lists.tags ==>
       0 <= s.cache[obj].tagIndices[t] < |s.lists.tags[t]| && s.lists.tags[t][s.cache[obj].tagIndices[t]] == obj)
  }

  /** World.cs:128-132: leave the update list if UpdateIndex != -1, patching the moved object. */
  function DropFromUpdate<O(==)>(s: State<O>, obj: O): (r: State<O>)
    requires Closed(s) && obj in s.cache
    requires s.cache[obj].updateIndex == -1 || 0 <= s.cache[obj].updateIndex < |s.lists.update|
    ensures Closed(r) && Unqueued(r, s) && r.cache.Keys == s.cache.Keys
    ensures r.lists.draw == s.lists.draw && r.lists.tags == s.lists.tags
    ensures forall o :: o in s.cache ==>
      r.cache[o].drawIndex == s.cache[o].drawIndex && r.cache[o].tagIndices == s.cache[o].tagIndices
    ensures s.cache[obj].updateIndex == -1 ==> r == s
    // the element at obj's slot leaves the list; obj keeps its own (now stale) slot
    ensures s.cache[obj].updateIndex != -1 ==>
      |r.lists.update| == |s.lists.update| - 1 &&
      multiset(r.lists.update) + multiset{s.lists.update[s.cache[obj].updateIndex]} == multiset(s.lists.update)
    ensures r.cache[obj].updateIndex == s.cache[obj].updateIndex
    ensures (s.cache[obj].updateIndex != -1 && s.lists.update[s.cache[obj].updateIndex] == obj &&
             multiset(s.lists.update)[obj] == 1) ==> obj !in r.lists.update
  {
    var index := s.cache[obj].updateIndex;
    if index == -1 then s
    else
      SwapRemovePermutes(s.lists.update, index);
      var swapped := Last(s.lists.update);
      s.(lists := s.lists.(update := SwapRemove(s.lists.update, index).0),
         cache := s.cache[swapped := s.cache[swapped].(updateIndex := index)])
  }

  /** World.cs:134-138: leave the draw list if DrawIndex != -1, patching the moved object. */
  function DropFromDraw<O(==)>(s: State<O>, obj: O): (r: State<O>)
    requires Closed(s) && obj in s.cache
    requires s.cache[obj].drawIndex == -1 || 0 <= s.cache[obj].drawIndex < |s.lists.draw|
    ensures Closed(r) && Unqueued(r, s) && r.cache.Keys == s.cache.Keys
    ensures r.lists.update == s.lists.update && r.lists.tags == s.lists.tags
    ensures forall o :: o in s.cache ==>
      r.cache[o].updateIndex == s.cache[o].updateIndex && r.cache[o].tagIndices == s.cache[o].tagIndices
    ensures s.cache[obj].drawIndex == -1 ==> r == s
    // the element at obj's slot leaves the list; obj keeps its own (now stale) slot
    ensures s.cache[obj].drawIndex != -1 ==>
      |r.lists.draw| == |s.lists.draw| - 1 &&
      multiset(r.lists.draw) + multiset{s.lists.draw[s.cache[obj].drawIndex]} == multiset(s.lists.draw)
    ensures r.cache[obj].drawIndex == s.cache[obj].drawIndex
    ensures (s.cache[obj].drawIndex != -1 && s.lists.draw[s.cache[obj].drawIndex] == obj &&
             multiset(s.lists.draw)[obj] == 1) ==> obj !in r.lists.draw
  {
    var index := s.cache[obj].drawIndex;
    if index == -1 then s
    else
      SwapRemovePermutes(s.lists.draw, index);
      var swapped := Last(s.lists.draw);
      s.(lists := s.lists.(draw := SwapRemove(s.lists.draw, index).0),
         cache := s.cache[swapped := s.cache[swapped].(drawIndex := index)])
  }

  /** The tag names among `names` whose list exists and is not empty. */
  function ActiveNames<O>(tags: map<string, seq<O>>, names: set<string>): set<string>
  {
    set t | t in names && t in tags && |tags[t]| > 0
  }

  /**
   * The state after RemoveTag(obj, t) has run for every t in `done`, in any
   * order (World.cs:140-143 over a snapshot of obj.TagIndices): each such
   * non-empty list is swap-removed at obj's cached slot, the moved object is
   * patched, and obj loses every such key of an existing tag, except that a
   * key is put back when obj itself was the last element (World.cs:92).
   */
  function DropTags<O(==)>(s: State<O>, obj: O, done: set<string>): (r: State<O>)
    requires Closed(s) && obj in s.cache && done <= s.cache[obj].tagIndices.Keys
    requires TagSlotsInRange(s, obj, done)
    ensures Closed(r) && Unqueued(r, s) && r.cache.Keys == s.cache.Keys
    ensures r.lists.update == s.lists.update && r.lists.draw == s.lists.draw
    ensures r.lists.tags.Keys == s.lists.tags.Keys
    ensures forall o :: o in s.cache ==>
      r.cache[o].updateIndex == s.cache[o].updateIndex && r.cache[o].drawIndex == s.cache[o].drawIndex
  {
    var tags := s.lists.tags;
    var held := s.cache[obj].tagIndices;
    var active := ActiveNames(tags, done);
    var newTags := map t | t in tags :: if t in active then SwapRemove(tags[t], held[t]).0 else tags[t];
    var newCache := map o | o in s.cache ::
      s.cache[o].(tagIndices := KeptSlots(s, obj, done, o) + Patches(s, obj, active, o));
    s.(lists := s.lists.(tags := newTags), cache := newCache)
  }

  /** The tag slots `o` keeps once obj has left the tags `done`: obj loses those of existing tags. */
  function KeptSlots<O(==)>(s: State<O>, obj: O, done: set<string>, o: O): map<string, int>
    requires obj in s.cache && o in s.cache
  {
    if o == obj then s.cache[obj].tagIndices - (done * s.lists.tags.Keys) else s.cache[o].tagIndices
  }

  /** The slots patched into `o` because it was the last element of a list obj left (World.cs:92). */
  function Patches<O(==)>(s: State<O>, obj: O, active: set<string>, o: O): map<string, int>
    requires obj in s.cache
    requires forall t :: t in active ==> t in s.lists.tags && |s.lists.tags[t]| > 0 && t in s.cache[obj].tagIndices
  {
    map t | t in active && Last(s.lists.tags[t]) == o :: s.cache[obj].tagIndices[t]
  }

  /**
   * The keys of obj's tag table in the order World.cs:140 enumerates them.
   * .NET does not fix the order in which a dictionary enumerates its keys, so
   * this picks one; UntagsInAnyOrder shows the choice does not matter.
   */
  ghost function KeyOrder(keys: set<string>): (r: seq<string>)
    ensures forall i, j :: 0 <= i < j < |r| ==> r[i] != r[j]
    ensures forall u :: u in r <==> u in keys
    decreases keys
  {
    if keys == {} then []
    else
      var t :| t in keys;
      KeyOrder(keys - {t}) + [t]
  }

  /**
   * One retirement: OnRemove first, then update list, draw list, and a
   * RemoveTag for every held tag in enumeration order.
   */
  ghost function Retire<O>(s: State<O>, obj: O): (r: State<O>)
    requires RetireDefined(s, obj)
    ensures Closed(r) && r.cache.Keys == s.cache.Keys && r.nextId == s.nextId
    ensures r.addQueue == s.addQueue && r.removeQueue == s.removeQueue
    ensures r.tagAddQueue == s.tagAddQueue && r.tagRemoveQueue == s.tagRemoveQueue
    ensures r.lists.tags.Keys == s.lists.tags.Keys
    // OnRemove runs first: the hook sees the lists before any removal.
    ensures r.trace == s.trace + [Event(OnRemove, obj, s.lists)]
  {
    var s1 := s.(trace := s.trace + [Event(OnRemove, obj, s.lists)]);
    var s2 := DropFromUpdate(s1, obj);
    var s3 := DropFromDraw(s2, obj);
    var order := KeyOrder(s.cache[obj].tagIndices.Keys);
    UntagsEveryKey(s3, obj, order);
    Untags(s3, obj, order).value
  }

  // ---------------------------------------------------------------------------
  // The slot invariant across single steps
  // ---------------------------------------------------------------------------

  /** An object that holds no slot for `name` is not in that tag's list. */
  lemma NotHeldNotListed<O>(s: State<O>, obj: O, name: string)
    requires SlotsValid(s) && obj in s.cache && name !in s.cache[obj].tagIndices
    ensures obj !in Get(s.lists.tags, name)
  {
    forall i | 0 <= i < |Get(s.lists.tags, name)|
      ensures Get(s.lists.tags, name)[i] != obj
    {
      assert name in s.cache[s.lists.tags[name][i]].tagIndices;
    }
  }

  /** AddTag keeps every cached slot equal to its position, and the new slot points at obj. */
  lemma AddTagKeepsSlots<O>(s: State<O>, obj: O, name: string)
    requires SlotsValid(s) && AddTagDefined(s, obj, name)
    ensures var r := AddTag(s, obj, name);
      SlotsValid(r) && name in r.lists.tags && Last(r.lists.tags[name]) == obj &&
      r.cache[obj].tagIndices[name] == |r.lists.tags[name]| - 1
  {
    NotHeldNotListed(s, obj, name);
    var r := AddTag(s, obj, name);
    forall t, i | t in r.lists.tags && 0 <= i < |r.lists.tags[t]|
      ensures t in r.cache[r.lists.tags[t][i]].tagIndices && r.cache[r.lists.tags[t][i]].tagIndices[t] == i
    {
      if t != name || i < |r.lists.tags[t]| - 1 {
        assert r.lists.tags[t][i] != obj || t != name;
      }
    }
  }

  /**
   * Removing an object from a tag it holds keeps every cached slot equal to
   * its position, and the object is no longer in that tag's list.
   */
  lemma RemoveTagKeepsSlots<O>(s: State<O>, obj: O, name: string)
    requires SlotsValid(s) && RemoveTagSound(s, obj, name)
    ensures SlotsValid(RemoveTag(s, obj, name))
    ensures obj !in Tagged(RemoveTag(s, obj, name), name)
  {
    var r := RemoveTag(s, obj, name);
    if name in s.lists.tags {
      var list := s.lists.tags[name];
      var index := s.cache[obj].tagIndices[name];
      var swapped := Last(list);
      var rest := r.lists.tags[name];
      assert rest == SwapRemove(list, index).0;
      forall t, i | t in r.lists.tags && 0 <= i < |r.lists.tags[t]|
        ensures t in r.cache[r.lists.tags[t][i]].tagIndices && r.cache[r.lists.tags[t][i]].tagIndices[t] == i
      {
        var o := r.lists.tags[t][i];
        if t == name && i != index {
          assert o == list[i];
          assert s.cache[list[|list| - 1]].tagIndices[name] == |list| - 1;
          assert o != swapped && o != obj;
        } else if t != name {
          assert o == s.lists.tags[t][i];
        }
      }
      forall j | 0 <= j < |rest| ensures rest[j] != obj {
        if j != index {
          assert rest[j] == list[j];
          assert s.cache[list[j]].tagIndices[name] == j;
        } else {
          assert s.cache[list[|list| - 1]].tagIndices[name] == |list| - 1;
        }
      }
    }
  }

  /**
   * The source quirk at World.cs:91-92: when obj is the LAST element of the
   * tag's list, RemoveFromList returns obj itself and the patch re-inserts the
   * key into obj's own TagIndices.  obj is out of the list but still claims the
   * tag, at a slot equal to the new list length, so a later AddTag of the same
   * name is no longer defined (Dictionary.Add throws at World.cs:69).
   */
  lemma UntagLastKeepsStaleSlot<O>(s: State<O>, obj: O, name: string)
    requires SlotsValid(s) && RemoveTagSound(s, obj, name)
    requires name in s.lists.tags && Last(s.lists.tags[name]) == obj
    ensures var r := RemoveTag(s, obj, name);
      obj !in r.lists.tags[name] &&
      name in r.cache[obj].tagIndices && r.cache[obj].tagIndices[name] == |r.lists.tags[name]| &&
      !AddTagDefined(r, obj, name)
  {
    RemoveTagKeepsSlots(s, obj, name);
    var list := s.lists.tags[name];
    assert s.cache[list[|list| - 1]].tagIndices[name] == |list| - 1;
  }

  /** When obj is not the last element, the untag drops obj's key as intended. */
  lemma UntagOtherDropsSlot<O>(s: State<O>, obj: O, name: string)
    requires SlotsValid(s) && RemoveTagSound(s, obj, name)
    requires name in s.lists.tags && Last(s.lists.tags[name]) != obj
    ensures name !in RemoveTag(s, obj, name).cache[obj].tagIndices
  {
  }

  /**
   * Admission sets World and the id, appends obj to each flagged list with
   * slot = new last position, leaves an unflagged list and its slot alone, and
   * keeps every cached slot equal to its position.
   */
  lemma AdmitKeepsSlots<O>(s: State<O>, r: AddRequest<O>)
    requires SlotsValid(s) && AdmitSound(s, r)
    ensures var a := Admit(s, r);
      SlotsValid(a) && a.cache[r.obj].admitted && a.cache[r.obj].worldId == s.nextId &&
      (r.update ==> a.lists.update == s.lists.update + [r.obj] && a.cache[r.obj].updateIndex == |s.lists.update|) &&
      (!r.update ==> a.lists.update == s.lists.update && a.cache[r.obj].updateIndex == s.cache[r.obj].updateIndex) &&
      (r.draw ==> a.lists.draw == s.lists.draw + [r.obj] && a.cache[r.obj].drawIndex == |s.lists.draw|) &&
      (!r.draw ==> a.lists.draw == s.lists.draw && a.cache[r.obj].drawIndex == s.cache[r.obj].drawIndex) &&
      a.lists.tags == s.lists.tags && a.cache[r.obj].tagIndices == s.cache[r.obj].tagIndices &&
      (forall o :: o in s.cache && o != r.obj ==> a.cache[o] == s.cache[o])
  {
    var a := Admit(s, r);
    forall i | 0 <= i < |a.lists.update|
      ensures a.cache[a.lists.update[i]].updateIndex == i
    {
      if i < |s.lists.update| {
        assert a.lists.update[i] == s.lists.update[i];
        assert r.update ==> s.lists.update[i] != r.obj;
      }
    }
    forall i | 0 <= i < |a.lists.draw|
      ensures a.cache[a.lists.draw[i]].drawIndex == i
    {
      if i < |s.lists.draw| {
        assert a.lists.draw[i] == s.lists.draw[i];
        assert r.draw ==> s.lists.draw[i] != r.obj;
      }
    }
  }

  /** Leaving the update list at a true slot keeps the slots and takes obj out of the list. */
  lemma DropFromUpdateKeepsSlots<O>(s: State<O>, obj: O)
    requires SlotsValid(s) && obj in s.cache
    requires s.cache[obj].updateIndex != -1 ==>
      0 <= s.cache[obj].updateIndex < |s.lists.update| && s.lists.update[s.cache[obj].updateIndex] == obj
    ensures SlotsValid(DropFromUpdate(s, obj)) && obj !in DropFromUpdate(s, obj).lists.update
  {
    var r := DropFromUpdate(s, obj);
    var list := s.lists.update;
    var index := s.cache[obj].updateIndex;
    if index == -1 {
      forall j | 0 <= j < |list| ensures list[j] != obj {
        assert s.cache[list[j]].updateIndex == j;
      }
    } else {
      assert s.cache[Last(list)].updateIndex == |list| - 1;
      forall i | 0 <= i < |r.lists.update|
        ensures r.cache[r.lists.update[i]].updateIndex == i && r.lists.update[i] != obj
      {
        if i != index {
          assert r.lists.update[i] == list[i];
          assert s.cache[list[i]].updateIndex == i;
        }
      }
    }
  }

  /** Leaving the draw list at a true slot keeps the slots and takes obj out of the list. */
  lemma DropFromDrawKeepsSlots<O>(s: State<O>, obj: O)
    requires SlotsValid(s) && obj in s.cache
    requires s.cache[obj].drawIndex != -1 ==>
      0 <= s.cache[obj].drawIndex < |s.lists.draw| && s.lists.draw[s.cache[obj].drawIndex] == obj
    ensures SlotsValid(DropFromDraw(s, obj)) && obj !in DropFromDraw(s, obj).lists.draw
  {
    var r := DropFromDraw(s, obj);
    var list := s.lists.draw;
    var index := s.cache[obj].drawIndex;
    if index == -1 {
      forall j | 0 <= j < |list| ensures list[j] != obj {
        assert s.cache[list[j]].drawIndex == j;
      }
    } else {
      assert s.cache[Last(list)].drawIndex == |list| - 1;
      forall i | 0 <= i < |r.lists.draw|
        ensures r.cache[r.lists.draw[i]].drawIndex == i && r.lists.draw[i] != obj
      {
        if i != index {
          assert r.lists.draw[i] == list[i];
          assert s.cache[list[i]].drawIndex == i;
        }
      }
    }
  }

  /** Every tag slot obj caches for an existing tag is its true position. */
  ghost predicate HoldsTags<O>(s: State<O>, obj: O)
    requires obj in s.cache
  {
    forall t :: t in s.cache[obj].tagIndices && t in s.lists.tags ==>
      0 <= s.cache[obj].tagIndices[t] < |s.lists.tags[t]| && s.lists.tags[t][s.cache[obj].tagIndices[t]] == obj
  }

  /**
   * Removing obj from every tag it holds keeps the slots of all other objects
   * and leaves obj in no tag list.
   */
  lemma DropTagsKeepsSlots<O>(s: State<O>, obj: O)
    requires SlotsValid(s) && obj in s.cache && HoldsTags(s, obj)
    ensures TagSlotsInRange(s, obj, s.cache[obj].tagIndices.Keys)
    ensures var r := DropTags(s, obj, s.cache[obj].tagIndices.Keys);
      SlotsValid(r) && forall t :: t in r.lists.tags ==> obj !in r.lists.tags[t]
  {
    var keys := s.cache[obj].tagIndices.Keys;
    var r := DropTags(s, obj, keys);
    var tags := s.lists.tags;
    var held := s.cache[obj].tagIndices;
    var active := ActiveNames(tags, keys);
    forall t, i | t in r.lists.tags && 0 <= i < |r.lists.tags[t]|
      ensures t in r.cache[r.lists.tags[t][i]].tagIndices && r.cache[r.lists.tags[t][i]].tagIndices[t] == i
      ensures r.lists.tags[t][i] != obj
    {
      var L := tags[t];
      var o := r.lists.tags[t][i];
      assert s.cache[L[|L| - 1]].tagIndices[t] == |L| - 1;
      if t in active {
        assert r.lists.tags[t] == SwapRemove(L, held[t]).0;
        if i == held[t] {
          assert o == Last(L);
          assert o != obj;
        } else {
          assert o == L[i];
          assert s.cache[L[i]].tagIndices[t] == i;
          assert o != obj && o != Last(L);
        }
      } else {
        assert o == L[i];
        assert s.cache[L[i]].tagIndices[t] == i;
        assert o != obj;
      }
    }
  }

  /**
   * Retiring an object that holds every membership it claims keeps every
   * other object's slots and leaves obj in no list.
   */
  lemma RetireKeepsSlots<O>(s: State<O>, obj: O)
    requires SlotsValid(s) && Held(s, obj) && KeysStable(s, obj)
    ensures RetireDefined(s, obj)
    ensures SlotsValid(Retire(s, obj)) && Detached(Retire(s, obj), obj)
  {
    var s1 := s.(trace := s.trace + [Event(OnRemove, obj, s.lists)]);
    DropFromUpdateKeepsSlots(s1, obj);
    var s2 := DropFromUpdate(s1, obj);
    DropFromDrawKeepsSlots(s2, obj);
    var s3 := DropFromDraw(s2, obj);
    DropTagsKeepsSlots(s3, obj);
    UntagsEveryKey(s3, obj, KeyOrder(s.cache[obj].tagIndices.Keys));
  }

  /**
   * World.cs:131 and 137 patch the moved object's slot but never reset obj's
   * own: a retired object keeps the update and draw slots it had.
   */
  lemma RetireKeepsOwnSlots<O>(s: State<O>, obj: O)
    requires RetireDefined(s, obj)
    ensures Retire(s, obj).cache[obj].updateIndex == s.cache[obj].updateIndex
    ensures Retire(s, obj).cache[obj].drawIndex == s.cache[obj].drawIndex
  {
    var s1 := s.(trace := s.trace + [Event(OnRemove, obj, s.lists)]);
    var s2 := DropFromUpdate(s1, obj);
    var s3 := DropFromDraw(s2, obj);
    UntagsEveryKey(s3, obj, KeyOrder(s.cache[obj].tagIndices.Keys));
  }

  /**
   * The stale slot in use: an object retired from the update list and added
   * again with update = false is in no update list, yet still claims its old
   * update slot, which a second retirement would swap-remove.
   */
  lemma ReadmitKeepsStaleSlot<O>(s: State<O>, obj: O)
    requires SlotsValid(s) && Held(s, obj) && KeysStable(s, obj)
    requires s.cache[obj].updateIndex != -1
    ensures RetireDefined(s, obj)
    ensures var a := Admit(Retire(s, obj), AddRequest(obj, false, false));
      obj !in a.lists.update && a.cache[obj].updateIndex == s.cache[obj].updateIndex != -1
  {
    RetireKeepsSlots(s, obj);
    RetireKeepsOwnSlots(s, obj);
  }

  /**
   * The enumeration fault of World.cs:140-143 in its plainest form: an object
   * that is alone in one of its tags cannot be retired without an exception,
   * however sound the rest of the state.
   */
  lemma SoleTaggedRetireThrows<O>(s: State<O>, obj: O, name: string)
    requires obj in s.cache && name in s.cache[obj].tagIndices
    requires name in s.lists.tags && s.lists.tags[name] == [obj]
    ensures !RetireDefined(s, obj)
  {
    assert Last(s.lists.tags[name]) == obj;
  }

  /** Before the key loop has run, DropTags is the identity. */
  lemma DropTagsNone<O>(s: State<O>, obj: O)
    requires Closed(s) && obj in s.cache
    ensures DropTags(s, obj, {}) == s
  {
    var r := DropTags(s, obj, {});
    assert ActiveNames(s.lists.tags, {}) == {};
    MapsAgree(r.lists.tags, s.lists.tags);
    forall o | o in s.cache ensures r.cache[o] == s.cache[o] {
      assert KeptSlots(s, obj, {}, o) == s.cache[o].tagIndices;
      assert Patches(s, obj, {}, o) == map[];
    }
    MapsAgree(r.cache, s.cache);
    assert r.lists == s.lists;
  }

  lemma KeptSlotsStep<O>(s: State<O>, obj: O, done: set<string>, t: string, o: O)
    requires obj in s.cache && o in s.cache
    ensures KeptSlots(s, obj, done + {t}, o) ==
      if o == obj && t in s.lists.tags then KeptSlots(s, obj, done, o) - {t} else KeptSlots(s, obj, done, o)
  {
    if o == obj {
      var held := s.cache[obj].tagIndices;
      var K := s.lists.tags.Keys;
      if t in K {
        assert (done + {t}) * K == done * K + {t};
      } else {
        assert (done + {t}) * K == done * K;
      }
    }
  }

  lemma PatchesStep<O>(s: State<O>, obj: O, done: set<string>, t: string, o: O)
    requires Closed(s) && obj in s.cache
    requires done <= s.cache[obj].tagIndices.Keys && t in s.cache[obj].tagIndices && t !in done
    ensures t !in Patches(s, obj, ActiveNames(s.lists.tags, done), o)
    ensures Patches(s, obj, ActiveNames(s.lists.tags, done + {t}), o) ==
      var p := Patches(s, obj, ActiveNames(s.lists.tags, done), o);
      if t in s.lists.tags && |s.lists.tags[t]| > 0 && Last(s.lists.tags[t]) == o
      then p[t := s.cache[obj].tagIndices[t]] else p
  {
    var tags := s.lists.tags;
    if t in tags && |tags[t]| > 0 {
      assert ActiveNames(tags, done + {t}) == ActiveNames(tags, done) + {t};
    } else {
      assert ActiveNames(tags, done + {t}) == ActiveNames(tags, done);
    }
  }

  /** Dropping key t and patching t commute with adding patches that do not mention t. */
  lemma PatchCommutes(kept: map<string, int>, patches: map<string, int>, t: string, h: int, drop: bool, patch: bool)
    requires t !in patches
    ensures var base := if drop then (kept + patches) - {t} else kept + patches;
      (if patch then base[t := h] else base) ==
      (if drop then kept - {t} else kept) + (if patch then patches[t := h] else patches)
  {
  }

  /** DropTagsStep for one object's cache entry. */
  lemma DropTagsStepEntry<O>(s: State<O>, obj: O, done: set<string>, t: string, o: O)
    requires Closed(s) && obj in s.cache && o in s.cache
    requires done <= s.cache[obj].tagIndices.Keys && t in s.cache[obj].tagIndices && t !in done
    requires TagSlotsInRange(s, obj, done + {t})
    ensures RemoveTagDefined(DropTags(s, obj, done), obj, t)
    ensures RemoveTag(DropTags(s, obj, done), obj, t).cache[o] == DropTags(s, obj, done + {t}).cache[o]
  {
    var tags := s.lists.tags;
    var held := s.cache[obj].tagIndices;
    PatchesStep(s, obj, done, t, obj);
    PatchesStep(s, obj, done, t, o);
    KeptSlotsStep(s, obj, done, t, o);
    var d := DropTags(s, obj, done);
    var e := DropTags(s, obj, done + {t});
    var kd := KeptSlots(s, obj, done, o);
    var pd := Patches(s, obj, ActiveNames(tags, done), o);
    assert d.cache[o].tagIndices == kd + pd;
    assert d.cache[obj].tagIndices[t] == held[t];
    var r := RemoveTag(d, obj, t);
    if t !in tags {
      assert r == d;
      assert e.cache[o].tagIndices == kd + pd;
    } else if |tags[t]| == 0 {
      assert d.lists.tags[t] == tags[t];
      assert r.cache[o].tagIndices == if o == obj then (kd + pd) - {t} else kd + pd;
      assert e.cache[o].tagIndices == if o == obj then (kd - {t}) + pd else kd + pd;
      PatchCommutes(kd, pd, t, 0, o == obj, false);
      assert r.cache[o].tagIndices == e.cache[o].tagIndices;
    } else {
      assert d.lists.tags[t] == tags[t];
      var base := if o == obj then (kd + pd) - {t} else kd + pd;
      assert r.cache[o].tagIndices == if o == Last(tags[t]) then base[t := held[t]] else base;
      var ke := if o == obj then kd - {t} else kd;
      var pe := if o == Last(tags[t]) then pd[t := held[t]] else pd;
      assert e.cache[o].tagIndices == ke + pe;
      PatchCommutes(kd, pd, t, held[t], o == obj, o == Last(tags[t]));
      assert r.cache[o].tagIndices == e.cache[o].tagIndices;
    }
    assert r.cache[o].tagIndices == e.cache[o].tagIndices;
    assert r.cache[o].updateIndex == e.cache[o].updateIndex;
    assert r.cache[o].drawIndex == e.cache[o].drawIndex;
    assert r.cache[o].admitted == e.cache[o].admitted;
    assert r.cache[o].worldId == e.cache[o].worldId;
  }

  /** DropTagsStep for one tag list. */
  lemma DropTagsStepList<O>(s: State<O>, obj: O, done: set<string>, t: string, u: string)
    requires Closed(s) && obj in s.cache
    requires done <= s.cache[obj].tagIndices.Keys && t in s.cache[obj].tagIndices && t !in done
    requires TagSlotsInRange(s, obj, done + {t}) && u in s.lists.tags
    ensures RemoveTagDefined(DropTags(s, obj, done), obj, t)
    ensures RemoveTag(DropTags(s, obj, done), obj, t).lists.tags[u] == DropTags(s, obj, done + {t}).lists.tags[u]
  {
    PatchesStep(s, obj, done, t, obj);
    var tags := s.lists.tags;
    if t in tags && |tags[t]| > 0 {
      assert ActiveNames(tags, done + {t}) == ActiveNames(tags, done) + {t};
    } else {
      assert ActiveNames(tags, done + {t}) == ActiveNames(tags, done);
    }
  }

  /**
   * One more round of the key loop of World.cs:140-143: RemoveTag(obj, t) on
   * the state after the keys `done` is the state after `done + {t}`.  This is
   * why the order in which the snapshot keys are visited does not matter.
   */
  lemma DropTagsStep<O>(s: State<O>, obj: O, done: set<string>, t: string)
    requires Closed(s) && obj in s.cache
    requires done <= s.cache[obj].tagIndices.Keys && t in s.cache[obj].tagIndices && t !in done
    requires TagSlotsInRange(s, obj, done + {t})
    ensures RemoveTagDefined(DropTags(s, obj, done), obj, t)
    ensures RemoveTag(DropTags(s, obj, done), obj, t) == DropTags(s, obj, done + {t})
  {
    TagSlotsInSubset(s, obj, done, done + {t});
    DropTagsStepCache(s, obj, done, t);
    DropTagsStepTags(s, obj, done, t);
    var r := RemoveTag(DropTags(s, obj, done), obj, t);
    var e := DropTags(s, obj, done + {t});
    assert r.lists == e.lists;
  }

  lemma DropTagsStepCache<O>(s: State<O>, obj: O, done: set<string>, t: string)
    requires Closed(s) && obj in s.cache
    requires done <= s.cache[obj].tagIndices.Keys && t in s.cache[obj].tagIndices && t !in done
    requires TagSlotsInRange(s, obj, done) && done + {t} <= s.cache[obj].tagIndices.Keys
    requires TagSlotsInRange(s, obj, done + {t})
    ensures RemoveTagDefined(DropTags(s, obj, done), obj, t)
    ensures RemoveTag(DropTags(s, obj, done), obj, t).cache == DropTags(s, obj, done + {t}).cache
  {
    DropTagsStepEntry(s, obj, done, t, obj);
    var r := RemoveTag(DropTags(s, obj, done), obj, t);
    var e := DropTags(s, obj, done + {t});
    forall o | o in s.cache ensures r.cache[o] == e.cache[o] {
      DropTagsStepEntry(s, obj, done, t, o);
    }
    MapsAgree(r.cache, e.cache);
  }

  lemma DropTagsStepTags<O>(s: State<O>, obj: O, done: set<string>, t: string)
    requires Closed(s) && obj in s.cache
    requires done <= s.cache[obj].tagIndices.Keys && t in s.cache[obj].tagIndices && t !in done
    requires TagSlotsInRange(s, obj, done) && done + {t} <= s.cache[obj].tagIndices.Keys
    requires TagSlotsInRange(s, obj, done + {t})
    ensures RemoveTagDefined(DropTags(s, obj, done), obj, t)
    ensures RemoveTag(DropTags(s, obj, done), obj, t).lists.tags == DropTags(s, obj, done + {t}).lists.tags
  {
    DropTagsStepEntry(s, obj, done, t, obj);
    var r := RemoveTag(DropTags(s, obj, done), obj, t);
    var e := DropTags(s, obj, done + {t});
    forall u | u in s.lists.tags ensures r.lists.tags[u] == e.lists.tags[u] {
      DropTagsStepList(s, obj, done, t, u);
    }
    MapsAgree(r.lists.tags, e.lists.tags);
  }

  /** The slot bound for a set of names holds for each of its subsets. */
  lemma TagSlotsInSubset<O>(s: State<O>, obj: O, names: set<string>, more: set<string>)
    requires obj in s.cache && names <= more && TagSlotsInRange(s, obj, more)
    ensures TagSlotsInRange(s, obj, names)
  {
  }

  /** Two maps with the same keys that agree on every key are equal. */
  lemma MapsAgree<K, V>(a: map<K, V>, b: map<K, V>)
    requires a.Keys == b.Keys && forall k :: k in a ==> a[k] == b[k]
    ensures a == b
  {
  }

  /**
   * World.cs:140-143 for one enumeration order of obj's keys: RemoveTag for
   * each in turn, or None when one of them would throw.
   */
  ghost function Untags<O>(s: State<O>, obj: O, order: seq<string>): (r: Option<State<O>>)
    decreases |order|
  {
    if order == [] then Some(s)
    else
      var p := Untags(s, obj, Front(order));
      if p.Some? && RemoveTagDefined(p.value, obj, Last(order)) then Some(RemoveTag(p.value, obj, Last(order)))
      else None
  }

  /**
   * Whatever order the dictionary enumerates obj's keys in, the key loop ends
   * in DropTags over the keys visited.
   */
  lemma {:induction false} UntagsInAnyOrder<O>(s: State<O>, obj: O, order: seq<string>)
    requires Closed(s) && obj in s.cache
    requires forall i, j :: 0 <= i < j < |order| ==> order[i] != order[j]
    requires forall t :: t in order ==> t in s.cache[obj].tagIndices
    requires TagSlotsInRange(s, obj, s.cache[obj].tagIndices.Keys)
    ensures Untags(s, obj, order) == Some(DropTags(s, obj, set t | t in order))
    decreases |order|
  {
    if order == [] {
      assert (set t | t in order) == {};
      DropTagsNone(s, obj);
    } else {
      var front := Front(order);
      var t := Last(order);
      var done := set u | u in front;
      assert (set u | u in order) == done + {t} by {
        assert order == front + [t];
      }
      assert t !in done by {
        forall i | 0 <= i < |front| ensures front[i] != t {
          assert order[i] != order[|order| - 1];
        }
      }
      UntagsInAnyOrder(s, obj, front);
      DropTagsStep(s, obj, done, t);
    }
  }

  /** The key loop over every key of the snapshot ends in DropTags over all of them. */
  lemma UntagsEveryKey<O>(s: State<O>, obj: O, order: seq<string>)
    requires Closed(s) && obj in s.cache
    requires forall i, j :: 0 <= i < j < |order| ==> order[i] != order[j]
    requires forall u :: u in order <==> u in s.cache[obj].tagIndices
    requires TagSlotsInRange(s, obj, s.cache[obj].tagIndices.Keys)
    ensures Untags(s, obj, order) == Some(DropTags(s, obj, s.cache[obj].tagIndices.Keys))
  {
    UntagsInAnyOrder(s, obj, order);
    assert (set u | u in order) == s.cache[obj].tagIndices.Keys;
  }

  /** The key loop may take one more key `t` not yet visited. */
  lemma UntagsNext<O>(s: State<O>, obj: O, order: seq<string>, t: string)
    requires Closed(s) && obj in s.cache
    requires forall i, j :: 0 <= i < j < |order| ==> order[i] != order[j]
    requires forall u :: u in order ==> u in s.cache[obj].tagIndices
    requires t in s.cache[obj].tagIndices && t !in order
    requires TagSlotsInRange(s, obj, s.cache[obj].tagIndices.Keys)
    ensures Untags(s, obj, order).Some? && RemoveTagDefined(Untags(s, obj, order).value, obj, t)
    ensures Untags(s, obj, order + [t]) == Some(RemoveTag(Untags(s, obj, order).value, obj, t))
  {
    assert Front(order + [t]) == order;
    UntagsInAnyOrder(s, obj, order + [t]);
  }

  // ---------------------------------------------------------------------------
  // The four flush phases (World.cs:150-162), each a left fold over its queue
  // in FIFO order.  A fold is written on the last request so that the k-th
  // step of the source's loop is the fold over the first k requests.
  // ---------------------------------------------------------------------------

  function Front<T>(q: seq<T>): seq<T>
    requires |q| > 0
  {
    q[..|q| - 1]
  }

  /** World.cs:152-153: AddTag for every request in queue order, or None when one would throw. */
  ghost function TagAdds<O>(s: State<O>, q: seq<TagRequest<O>>): (r: Option<State<O>>)
    ensures r.Some? ==> Unqueued(r.value, s) && r.value.cache.Keys == s.cache.Keys
    ensures r.Some? && Closed(s) ==> Closed(r.value)
    decreases |q|
  {
    if q == [] then Some(s)
    else
      var p := TagAdds(s, Front(q));
      if p.Some? && AddTagDefined(p.value, Last(q).obj, Last(q).tagName)
      then Some(AddTag(p.value, Last(q).obj, Last(q).tagName))
      else None
  }

  /** No AddTag of the tag-add phase throws. */
  ghost predicate TagAddsDefined<O>(s: State<O>, q: seq<TagRequest<O>>)
  {
    Closed(s) && TagAdds(s, q).Some?
  }

  /** World.cs:156-157: RemoveTag for every request in queue order, or None when one would throw. */
  ghost function TagRemoves<O>(s: State<O>, q: seq<TagRequest<O>>): (r: Option<State<O>>)
    ensures r.Some? ==> Unqueued(r.value, s) && r.value.cache.Keys == s.cache.Keys
    ensures r.Some? ==> r.value.lists.update == s.lists.update && r.value.lists.draw == s.lists.draw
    ensures r.Some? && Closed(s) ==> Closed(r.value)
    decreases |q|
  {
    if q == [] then Some(s)
    else
      var p := TagRemoves(s, Front(q));
      if p.Some? && RemoveTagDefined(p.value, Last(q).obj, Last(q).tagName)
      then Some(RemoveTag(p.value, Last(q).obj, Last(q).tagName))
      else None
  }

  /** No RemoveTag of the tag-remove phase throws. */
  ghost predicate TagRemovesDefined<O>(s: State<O>, q: seq<TagRequest<O>>)
  {
    Closed(s) && TagRemoves(s, q).Some?
  }

  /** Every untag of the phase removes a membership the object really holds. */
  ghost predicate TagRemovesSound<O>(s: State<O>, q: seq<TagRequest<O>>)
    ensures TagRemovesSound(s, q) ==> TagRemovesDefined(s, q)
  {
    if q == [] then Closed(s)
    else TagRemovesSound(s, Front(q)) && RemoveTagSound(TagRemoves(s, Front(q)).value, Last(q).obj, Last(q).tagName)
  }

  /** Admission cannot throw; this only asks that every queued object is known. */
  ghost predicate AdmitsDefined<O>(s: State<O>, q: seq<AddRequest<O>>)
  {
    forall r :: r in q ==> r.obj in s.cache
  }

  /** World.cs:99-118: FlushAddQueue's loop. */
  function Admits<O(==)>(s: State<O>, q: seq<AddRequest<O>>): (r: State<O>)
    requires AdmitsDefined(s, q)
    ensures Closed(s) ==> Closed(r)
    ensures r.cache.Keys == s.cache.Keys && r.nextId == s.nextId + |q|
    ensures r.addQueue == s.addQueue && r.removeQueue == s.removeQueue
    ensures r.tagAddQueue == s.tagAddQueue && r.tagRemoveQueue == s.tagRemoveQueue
    decreases |q|
  {
    if q == [] then s else Admit(Admits(s, Front(q)), Last(q))
  }

  /** No admitted object is already in a list it joins. */
  ghost predicate AdmitsSound<O>(s: State<O>, q: seq<AddRequest<O>>)
    ensures AdmitsSound(s, q) ==> AdmitsDefined(s, q)
  {
    if q == [] then Closed(s)
    else AdmitsSound(s, Front(q)) && AdmitSound(Admits(s, Front(q)), Last(q))
  }

  /**
   * World.cs:124-146: FlushRemoveQueue's loop, or None when some turn would
   * throw (the turn's state does not satisfy RetireDefined).
   */
  ghost function Retires<O>(s: State<O>, q: seq<O>): (r: Option<State<O>>)
    ensures r.Some? ==> r.value.cache.Keys == s.cache.Keys && r.value.nextId == s.nextId
    ensures r.Some? ==> r.value.addQueue == s.addQueue && r.value.removeQueue == s.removeQueue
    ensures r.Some? ==> r.value.tagAddQueue == s.tagAddQueue && r.value.tagRemoveQueue == s.tagRemoveQueue
    ensures r.Some? && Closed(s) ==> Closed(r.value)
    decreases |q|
  {
    if q == [] then Some(s)
    else
      var p := Retires(s, Front(q));
      if p.Some? && RetireDefined(p.value, Last(q)) then Some(Retire(p.value, Last(q))) else None
  }

  /** No retirement of the phase throws. */
  ghost predicate RetiresDefined<O>(s: State<O>, q: seq<O>)
  {
    Closed(s) && Retires(s, q).Some?
  }

  /**
   * Every retired object holds, when its turn comes, every membership it
   * claims, and is the last element of none of its tag lists.
   */
  ghost predicate RetiresSound<O>(s: State<O>, q: seq<O>)
    ensures RetiresSound(s, q) ==> RetiresDefined(s, q)
  {
    if q == [] then Closed(s)
    else RetiresSound(s, Front(q)) && Held(Retires(s, Front(q)).value, Last(q)) &&
         KeysStable(Retires(s, Front(q)).value, Last(q))
  }

  // The phases as FlushQueues runs them: fold over the queue, then clear it.

  ghost function FlushTagAdds<O>(s: State<O>): (r: State<O>)
    requires TagAddsDefined(s, s.tagAddQueue)
    ensures Closed(r) && r.tagAddQueue == []
  {
    TagAdds(s, s.tagAddQueue).value.(tagAddQueue := [])
  }

  ghost function FlushTagRemoves<O>(s: State<O>): (r: State<O>)
    requires TagRemovesDefined(s, s.tagRemoveQueue)
    ensures Closed(r) && r.tagRemoveQueue == [] && r.tagAddQueue == s.tagAddQueue
  {
    TagRemoves(s, s.tagRemoveQueue).value.(tagRemoveQueue := [])
  }

  function FlushAdmits<O(==)>(s: State<O>): (r: State<O>)
    requires Closed(s)
    ensures Closed(r) && r.addQueue == [] && r.tagAddQueue == s.tagAddQueue && r.tagRemoveQueue == s.tagRemoveQueue
  {
    Admits(s, s.addQueue).(addQueue := [])
  }

  ghost function FlushRetires<O>(s: State<O>): (r: State<O>)
    requires RetiresDefined(s, s.removeQueue)
    ensures Closed(r) && r.removeQueue == []
    ensures r.addQueue == s.addQueue && r.tagAddQueue == s.tagAddQueue && r.tagRemoveQueue == s.tagRemoveQueue
  {
    Retires(s, s.removeQueue).value.(removeQueue := [])
  }

  /** FlushQueues does not throw: every phase is defined on the state the previous one leaves. */
  ghost predicate FlushDefined<O>(s: State<O>)
  {
    TagAddsDefined(s, s.tagAddQueue) &&
    var s1 := FlushTagAdds(s);
    TagRemovesDefined(s1, s1.tagRemoveQueue) &&
    var s2 := FlushTagRemoves(s1);
    var s3 := FlushAdmits(s2);
    RetiresDefined(s3, s3.removeQueue)
  }

  /** The conditions under which FlushQueues keeps the slot invariant. */
  ghost predicate FlushSound<O>(s: State<O>)
  {
    TagAddsDefined(s, s.tagAddQueue) &&
    var s1 := FlushTagAdds(s);
    TagRemovesSound(s1, s1.tagRemoveQueue) &&
    var s2 := FlushTagRemoves(s1);
    AdmitsSound(s2, s2.addQueue) &&
    var s3 := FlushAdmits(s2);
    RetiresSound(s3, s3.removeQueue)
  }

  /** World.cs:150-162: tag-adds, tag-removes, admissions, retirements, each queue cleared after its phase. */
  ghost function FlushQueues<O>(s: State<O>): (r: State<O>)
    requires FlushDefined(s)
    ensures Closed(r) && r.tagAddQueue == [] && r.tagRemoveQueue == [] && r.addQueue == [] && r.removeQueue == []
    ensures r.cache.Keys == s.cache.Keys
  {
    FlushRetires(FlushAdmits(FlushTagRemoves(FlushTagAdds(s))))
  }

  // ---------------------------------------------------------------------------
  // The k-th step of each phase loop: the fold over the first k + 1 requests
  // is one more step on the fold over the first k.
  // ---------------------------------------------------------------------------

  lemma {:induction false} TagAddsStep<O>(s: State<O>, q: seq<TagRequest<O>>, i: nat)
    requires TagAdds(s, q).Some? && i < |q|
    ensures TagAdds(s, q[..i]).Some? && AddTagDefined(TagAdds(s, q[..i]).value, q[i].obj, q[i].tagName)
    ensures TagAdds(s, q[..i + 1]) == Some(AddTag(TagAdds(s, q[..i]).value, q[i].obj, q[i].tagName))
    decreases |q|
  {
    assert Front(q[..i + 1]) == q[..i];
    if i + 1 < |q| {
      assert Front(q)[..i + 1] == q[..i + 1] && Front(q)[..i] == q[..i];
      TagAddsStep(s, Front(q), i);
    } else {
      assert q[..i + 1] == q;
    }
  }

  lemma {:induction false} TagRemovesStep<O>(s: State<O>, q: seq<TagRequest<O>>, i: nat)
    requires TagRemoves(s, q).Some? && i < |q|
    ensures TagRemoves(s, q[..i]).Some? && RemoveTagDefined(TagRemoves(s, q[..i]).value, q[i].obj, q[i].tagName)
    ensures TagRemoves(s, q[..i + 1]) == Some(RemoveTag(TagRemoves(s, q[..i]).value, q[i].obj, q[i].tagName))
    decreases |q|
  {
    assert Front(q[..i + 1]) == q[..i];
    if i + 1 < |q| {
      assert Front(q)[..i + 1] == q[..i + 1] && Front(q)[..i] == q[..i];
      TagRemovesStep(s, Front(q), i);
    } else {
      assert q[..i + 1] == q;
    }
  }

  lemma AdmitsStep<O>(s: State<O>, q: seq<AddRequest<O>>, i: nat)
    requires AdmitsDefined(s, q) && i < |q|
    ensures AdmitsDefined(s, q[..i]) && AdmitsDefined(s, q[..i + 1])
    ensures Admits(s, q[..i + 1]) == Admit(Admits(s, q[..i]), q[i])
  {
    assert Front(q[..i + 1]) == q[..i];
  }

  lemma {:induction false} RetiresStep<O>(s: State<O>, q: seq<O>, i: nat)
    requires Retires(s, q).Some? && i < |q|
    ensures Retires(s, q[..i]).Some? && RetireDefined(Retires(s, q[..i]).value, q[i])
    ensures Retires(s, q[..i + 1]) == Some(Retire(Retires(s, q[..i]).value, q[i]))
    decreases |q|
  {
    assert Front(q[..i + 1]) == q[..i];
    if i + 1 < |q| {
      assert Front(q)[..i + 1] == q[..i + 1] && Front(q)[..i] == q[..i];
      RetiresStep(s, Front(q), i);
    } else {
      assert q[..i + 1] == q;
    }
  }

  // ---------------------------------------------------------------------------
  // Every flush phase keeps the slot invariant
  // ---------------------------------------------------------------------------

  lemma {:induction false} TagAddsKeepSlots<O>(s: State<O>, q: seq<TagRequest<O>>)
    requires SlotsValid(s) && TagAddsDefined(s, q)
    ensures SlotsValid(TagAdds(s, q).value)
    decreases |q|
  {
    if q != [] {
      TagAddsKeepSlots(s, Front(q));
      AddTagKeepsSlots(TagAdds(s, Front(q)).value, Last(q).obj, Last(q).tagName);
    }
  }

  lemma {:induction false} TagRemovesKeepSlots<O>(s: State<O>, q: seq<TagRequest<O>>)
    requires SlotsValid(s) && TagRemovesSound(s, q)
    ensures SlotsValid(TagRemoves(s, q).value)
    decreases |q|
  {
    if q != [] {
      TagRemovesKeepSlots(s, Front(q));
      RemoveTagKeepsSlots(TagRemoves(s, Front(q)).value, Last(q).obj, Last(q).tagName);
    }
  }

  lemma {:induction false} AdmitsKeepSlots<O>(s: State<O>, q: seq<AddRequest<O>>)
    requires SlotsValid(s) && AdmitsSound(s, q)
    ensures SlotsValid(Admits(s, q))
    decreases |q|
  {
    if q != [] {
      AdmitsKeepSlots(s, Front(q));
      AdmitKeepsSlots(Admits(s, Front(q)), Last(q));
    }
  }

  lemma {:induction false} RetiresKeepSlots<O>(s: State<O>, q: seq<O>)
    requires SlotsValid(s) && RetiresSound(s, q)
    ensures SlotsValid(Retires(s, q).value)
    decreases |q|
  {
    if q != [] {
      RetiresKeepSlots(s, Front(q));
      RetireKeepsSlots(Retires(s, Front(q)).value, Last(q));
    }
  }

  /**
   * FlushQueues keeps every cached slot equal to its list position and
   * leaves the four queues empty.
   */
  lemma FlushKeepsSlots<O>(s: State<O>)
    requires SlotsValid(s) && FlushSound(s)
    ensures FlushDefined(s) && SlotsValid(FlushQueues(s))
  {
    TagAddsKeepSlots(s, s.tagAddQueue);
    var s1 := FlushTagAdds(s);
    TagRemovesKeepSlots(s1, s1.tagRemoveQueue);
    var s2 := FlushTagRemoves(s1);
    AdmitsKeepSlots(s2, s2.addQueue);
    var s3 := FlushAdmits(s2);
    RetiresKeepSlots(s3, s3.removeQueue);
  }

  // ---------------------------------------------------------------------------
  // What admission promises (World.cs:99-118)
  // ---------------------------------------------------------------------------

  /** The objects of the requests that join the update list (`update`) or the draw list, in queue order. */
  function Joining<O>(q: seq<AddRequest<O>>, update: bool): (r: seq<O>)
    decreases |q|
  {
    if q == [] then []
    else Joining(Front(q), update) + (if (if update then Last(q).update else Last(q).draw) then [Last(q).obj] else [])
  }

  /** Which hook ran on which object, in order, forgetting what each hook saw. */
  function Calls<O>(trace: seq<Event<O>>): (r: seq<(Hook, O)>)
    ensures |r| == |trace|
    decreases |trace|
  {
    if trace == [] then [] else Calls(Front(trace)) + [(Last(trace).hook, Last(trace).obj)]
  }

  lemma CallsAppend<O>(trace: seq<Event<O>>, e: Event<O>)
    ensures Calls(trace + [e]) == Calls(trace) + [(e.hook, e.obj)]
  {
    assert Front(trace + [e]) == trace;
  }

  /** One OnAdd per request, in queue order. */
  function AddCalls<O>(q: seq<AddRequest<O>>): seq<(Hook, O)>
    decreases |q|
  {
    if q == [] then [] else AddCalls(Front(q)) + [(OnAdd, Last(q).obj)]
  }

  /** One OnRemove per queued object, in queue order. */
  function RemoveCalls<O>(q: seq<O>): seq<(Hook, O)>
    decreases |q|
  {
    if q == [] then [] else RemoveCalls(Front(q)) + [(OnRemove, Last(q))]
  }

  /**
   * Admission appends exactly the flagged objects to the update and draw
   * lists, in queue order, and leaves the tag table alone.
   */
  lemma {:induction false} AdmitsAppend<O>(s: State<O>, q: seq<AddRequest<O>>)
    requires AdmitsDefined(s, q)
    ensures Admits(s, q).lists.update == s.lists.update + Joining(q, true)
    ensures Admits(s, q).lists.draw == s.lists.draw + Joining(q, false)
    ensures Admits(s, q).lists.tags == s.lists.tags
    decreases |q|
  {
    if q != [] {
      AdmitsAppend(s, Front(q));
      var p := Admits(s, Front(q));
      var j := if Last(q).update then [Last(q).obj] else [];
      assert Admits(s, q).lists.update == p.lists.update + j;
      assert s.lists.update + Joining(Front(q), true) + j == s.lists.update + Joining(q, true);
      var k := if Last(q).draw then [Last(q).obj] else [];
      assert Admits(s, q).lists.draw == p.lists.draw + k;
      assert s.lists.draw + Joining(Front(q), false) + k == s.lists.draw + Joining(q, false);
    }
  }

  /** Admission keeps the trace so far and runs one OnAdd per request, in queue order. */
  lemma {:induction false} AdmitsHooks<O>(s: State<O>, q: seq<AddRequest<O>>)
    requires AdmitsDefined(s, q)
    ensures s.trace <= Admits(s, q).trace
    ensures Calls(Admits(s, q).trace) == Calls(s.trace) + AddCalls(q)
    decreases |q|
  {
    if q != [] {
      AdmitsHooks(s, Front(q));
      var p := Admits(s, Front(q));
      var e := Event(OnAdd, Last(q).obj, Admit(p, Last(q)).lists);
      assert Admit(p, Last(q)).trace == p.trace + [e];
      CallsAppend(p.trace, e);
      assert AddCalls(q) == AddCalls(Front(q)) + [(OnAdd, Last(q).obj)];
    }
  }

  /** One admission stamps its object and no other. */
  lemma AdmitStamps<O>(s: State<O>, r: AddRequest<O>)
    requires AdmitDefined(s, r)
    ensures Admit(s, r).cache[r.obj].admitted && Admit(s, r).cache[r.obj].worldId == s.nextId
    ensures forall o :: o in s.cache && o != r.obj ==> Admit(s, r).cache[o] == s.cache[o]
  {
  }

  /** Some request of `q` is for `o`. */
  ghost predicate Requested<O>(q: seq<AddRequest<O>>, o: O)
  {
    exists k :: 0 <= k < |q| && q[k].obj == o
  }

  /** Admission changes no object outside the queue. */
  lemma {:induction false} AdmitsLeaveOthers<O>(s: State<O>, q: seq<AddRequest<O>>, o: O)
    requires AdmitsDefined(s, q) && o in s.cache && !Requested(q, o)
    ensures Admits(s, q).cache[o] == s.cache[o]
    decreases |q|
  {
    if q != [] {
      assert forall k :: 0 <= k < |Front(q)| ==> Front(q)[k] == q[k];
      AdmitsLeaveOthers(s, Front(q), o);
      AdmitStamps(Admits(s, Front(q)), Last(q));
    }
  }

  /**
   * Admitted objects take consecutive ids from the counter in queue order
   * (World.cs:45, World.cs:102) and each now refers to this world.
   */
  lemma {:induction false} AdmitsIds<O>(s: State<O>, q: seq<AddRequest<O>>)
    requires AdmitsDefined(s, q)
    requires forall i, j :: 0 <= i < j < |q| ==> q[i].obj != q[j].obj
    ensures forall k :: 0 <= k < |q| ==>
      Admits(s, q).cache[q[k].obj].admitted && Admits(s, q).cache[q[k].obj].worldId == s.nextId + k
    decreases |q|
  {
    if q != [] {
      AdmitsIds(s, Front(q));
      var p := Admits(s, Front(q));
      AdmitStamps(p, Last(q));
      forall k | 0 <= k < |q| - 1
        ensures Admits(s, q).cache[q[k].obj] == p.cache[q[k].obj]
      {
        assert Front(q)[k] == q[k];
      }
    }
  }

  // ---------------------------------------------------------------------------
  // What retirement promises (World.cs:122-148)
  // ---------------------------------------------------------------------------

  /** Every list of `r` holds only objects that the same list of `s` holds: nothing joined. */
  ghost predicate ListsWithin<O>(r: State<O>, s: State<O>)
  {
    (forall o :: o in r.lists.update ==> o in s.lists.update) &&
    (forall o :: o in r.lists.draw ==> o in s.lists.draw) &&
    (forall t, o :: t in r.lists.tags && o in r.lists.tags[t] ==> o in Get(s.lists.tags, t))
  }

  /** A swap-remove only loses elements. */
  lemma SwapRemoveWithin<T>(list: seq<T>, index: int, x: T)
    requires 0 <= index < |list| && x in SwapRemove(list, index).0
    ensures x in list
  {
    var j :| 0 <= j < |SwapRemove(list, index).0| && SwapRemove(list, index).0[j] == x;
    if j != index {
      assert list[j] == x;
    }
  }

  lemma RemoveTagWithin<O>(s: State<O>, obj: O, name: string)
    requires RemoveTagDefined(s, obj, name)
    ensures ListsWithin(RemoveTag(s, obj, name), s)
  {
    var r := RemoveTag(s, obj, name);
    forall t, o | t in r.lists.tags && o in r.lists.tags[t]
      ensures o in Get(s.lists.tags, t)
    {
      if t == name && name in s.lists.tags && |s.lists.tags[name]| > 0 {
        SwapRemoveWithin(s.lists.tags[name], s.cache[obj].tagIndices[name], o);
      }
    }
  }

  lemma {:induction false} UntagsWithin<O>(s: State<O>, obj: O, order: seq<string>)
    requires Untags(s, obj, order).Some?
    ensures ListsWithin(Untags(s, obj, order).value, s)
    decreases |order|
  {
    if order != [] {
      UntagsWithin(s, obj, Front(order));
      RemoveTagWithin(Untags(s, obj, Front(order)).value, obj, Last(order));
    }
  }

  /** Retirement only takes objects out of lists. */
  lemma RetireWithin<O>(s: State<O>, obj: O)
    requires RetireDefined(s, obj)
    ensures ListsWithin(Retire(s, obj), s)
  {
    var s1 := s.(trace := s.trace + [Event(OnRemove, obj, s.lists)]);
    var s2 := DropFromUpdate(s1, obj);
    var s3 := DropFromDraw(s2, obj);
    var order := KeyOrder(s.cache[obj].tagIndices.Keys);
    UntagsEveryKey(s3, obj, order);
    UntagsWithin(s3, obj, order);
    var r := Retire(s, obj);
    forall o | o in r.lists.update ensures o in s.lists.update {
      if s.cache[obj].updateIndex != -1 {
        SwapRemoveWithin(s.lists.update, s.cache[obj].updateIndex, o);
      }
    }
    forall o | o in r.lists.draw ensures o in s.lists.draw {
      if s.cache[obj].drawIndex != -1 {
        SwapRemoveWithin(s.lists.draw, s.cache[obj].drawIndex, o);
      }
    }
  }

  /** Retirement keeps the trace so far and runs one OnRemove per queued object, in queue order. */
  lemma {:induction false} RetiresHooks<O>(s: State<O>, q: seq<O>)
    requires Retires(s, q).Some?
    ensures s.trace <= Retires(s, q).value.trace
    ensures Calls(Retires(s, q).value.trace) == Calls(s.trace) + RemoveCalls(q)
    decreases |q|
  {
    if q != [] {
      RetiresHooks(s, Front(q));
      var p := Retires(s, Front(q)).value;
      var r := Retires(s, q).value;
      assert r.trace == p.trace + [Event(OnRemove, Last(q), p.lists)];
      CallsAppend(p.trace, Event(OnRemove, Last(q), p.lists));
    }
  }

  /** An object in no list stays in no list when another is retired. */
  lemma RetireKeepsDetached<O>(s: State<O>, obj: O, o: O)
    requires RetireDefined(s, obj) && Detached(s, o)
    ensures Detached(Retire(s, obj), o)
  {
    RetireWithin(s, obj);
  }

  /** The last turn of the retirement phase detaches its object and keeps the earlier ones detached. */
  lemma RetireDetachesQueue<O>(p: State<O>, q: seq<O>)
    requires q != [] && SlotsValid(p) && Held(p, Last(q)) && KeysStable(p, Last(q))
    requires forall o :: o in Front(q) ==> Detached(p, o)
    ensures RetireDefined(p, Last(q))
    ensures forall o :: o in q ==> Detached(Retire(p, Last(q)), o)
  {
    RetireKeepsSlots(p, Last(q));
    forall o | o in q ensures Detached(Retire(p, Last(q)), o) {
      var k :| 0 <= k < |q| && q[k] == o;
      if k < |q| - 1 {
        assert Front(q)[k] == o;
        RetireKeepsDetached(p, Last(q), o);
      }
    }
  }

  /** After a sound retirement phase, every object of the queue is in no list. */
  lemma {:induction false} RetiresDetach<O>(s: State<O>, q: seq<O>)
    requires SlotsValid(s) && RetiresSound(s, q)
    ensures forall o :: o in q ==> Detached(Retires(s, q).value, o)
    decreases |q|
  {
    if q != [] {
      RetiresDetach(s, Front(q));
      RetiresKeepSlots(s, Front(q));
      RetireDetachesQueue(Retires(s, Front(q)).value, q);
    }
  }

  /**
   * One FlushQueues runs every OnAdd before every OnRemove, each phase in
   * queue order, and keeps the trace so far.
   */
  lemma FlushHooks<O>(s: State<O>)
    requires FlushDefined(s)
    ensures s.trace <= FlushQueues(s).trace
    ensures Calls(FlushQueues(s).trace) == Calls(s.trace) + AddCalls(s.addQueue) + RemoveCalls(s.removeQueue)
  {
    var s2 := FlushTagRemoves(FlushTagAdds(s));
    assert s2.trace == s.trace && s2.addQueue == s.addQueue && s2.removeQueue == s.removeQueue;
    AdmitsHooks(s2, s2.addQueue);
    var s3 := FlushAdmits(s2);
    RetiresHooks(s3, s3.removeQueue);
  }

  // ---------------------------------------------------------------------------
  // Requests (World.cs:164-195): they only queue; nothing moves until FlushQueues
  // ---------------------------------------------------------------------------

  /**
   * The registry learns of obj the first time it is handed it; `c` is what
   * obj's own fields read at that moment.
   */
  function Know<O(==)>(s: State<O>, obj: O, c: Cache): (r: State<O>)
    ensures r.cache.Keys == s.cache.Keys + {obj}
    ensures forall o :: o in s.cache ==> r.cache[o] == s.cache[o]
    ensures obj !in s.cache ==> r.cache[obj] == c
    ensures r.(cache := s.cache) == s
  {
    if obj in s.cache then s else s.(cache := s.cache[obj := c])
  }

  /** `r` differs from `s` at most in its queues and in knowing more objects: no list, slot, id or hook changed. */
  ghost predicate OnlyQueued<O>(r: State<O>, s: State<O>)
  {
    r.lists == s.lists && r.nextId == s.nextId && r.trace == s.trace &&
    s.cache.Keys <= r.cache.Keys && (forall o :: o in s.cache ==> r.cache[o] == s.cache[o]) &&
    (Closed(s) ==> Closed(r)) && (SlotsValid(s) ==> SlotsValid(r))
  }

  /** Learning of an object that is in no list keeps the slot invariant. */
  lemma KnowKeepsSlots<O>(s: State<O>, obj: O, c: Cache)
    ensures OnlyQueued(Know(s, obj, c), s)
  {
    var r := Know(s, obj, c);
    if SlotsValid(s) {
      assert forall i :: 0 <= i < |r.lists.update| ==> r.lists.update[i] in s.cache;
      assert forall i :: 0 <= i < |r.lists.draw| ==> r.lists.draw[i] in s.cache;
      assert forall t, i :: t in r.lists.tags && 0 <= i < |r.lists.tags[t]| ==> r.lists.tags[t][i] in s.cache;
    }
  }

  /** World.cs:164-171: an admission request joins the end of the add queue. */
  function AddObject<O(==)>(s: State<O>, obj: O, update: bool, draw: bool, c: Cache): (r: State<O>)
    ensures OnlyQueued(r, s) && obj in r.cache
    ensures r.addQueue == s.addQueue + [AddRequest(obj, update, draw)]
    ensures r.removeQueue == s.removeQueue && r.tagAddQueue == s.tagAddQueue && r.tagRemoveQueue == s.tagRemoveQueue
  {
    KnowKeepsSlots(s, obj, c);
    Know(s, obj, c).(addQueue := s.addQueue + [AddRequest(obj, update, draw)])
  }

  /** World.cs:173-176: a removal request joins the end of the remove queue. */
  function RemoveObject<O(==)>(s: State<O>, obj: O, c: Cache): (r: State<O>)
    ensures OnlyQueued(r, s) && obj in r.cache
    ensures r.removeQueue == s.removeQueue + [obj]
    ensures r.addQueue == s.addQueue && r.tagAddQueue == s.tagAddQueue && r.tagRemoveQueue == s.tagRemoveQueue
  {
    KnowKeepsSlots(s, obj, c);
    Know(s, obj, c).(removeQueue := s.removeQueue + [obj])
  }

  /** World.cs:178-184: a tag request joins the end of the tag-add queue, whatever obj holds. */
  function Tag<O(==)>(s: State<O>, obj: O, name: string, c: Cache): (r: State<O>)
    ensures OnlyQueued(r, s) && obj in r.cache
    ensures r.tagAddQueue == s.tagAddQueue + [TagRequest(obj, name)]
    ensures r.addQueue == s.addQueue && r.removeQueue == s.removeQueue && r.tagRemoveQueue == s.tagRemoveQueue
  {
    KnowKeepsSlots(s, obj, c);
    Know(s, obj, c).(tagAddQueue := s.tagAddQueue + [TagRequest(obj, name)])
  }

  /**
   * World.cs:186-195: an untag request is dropped at once unless obj's own
   * fields `c` hold the name; otherwise it joins the end of the tag-remove queue.
   */
  function Untag<O(==)>(s: State<O>, obj: O, name: string, c: Cache): (r: State<O>)
    ensures OnlyQueued(r, s)
    ensures name !in c.tagIndices ==> r == s
    ensures name in c.tagIndices ==> obj in r.cache && r.tagRemoveQueue == s.tagRemoveQueue + [TagRequest(obj, name)]
    ensures r.addQueue == s.addQueue && r.removeQueue == s.removeQueue && r.tagAddQueue == s.tagAddQueue
  {
    KnowKeepsSlots(s, obj, c);
    if name !in c.tagIndices then s
    else Know(s, obj, c).(tagRemoveQueue := s.tagRemoveQueue + [TagRequest(obj, name)])
  }

  // ---------------------------------------------------------------------------
  // The per-frame passes (World.cs:47-61)
  // ---------------------------------------------------------------------------

  /** The hook `hook` run on every object of `list`, in list order, each seeing `view`. */
  function Visits<O>(hook: Hook, list: seq<O>, view: Lists<O>): (r: seq<Event<O>>)
    decreases |list|
  {
    if list == [] then [] else Visits(hook, Front(list), view) + [Event(hook, Last(list), view)]
  }

  /** A pass visits each listed object once, at its own position, and nothing else. */
  lemma {:induction false} VisitsInOrder<O>(hook: Hook, list: seq<O>, view: Lists<O>)
    ensures |Visits(hook, list, view)| == |list|
    ensures forall k :: 0 <= k < |list| ==> Visits(hook, list, view)[k] == Event(hook, list[k], view)
    decreases |list|
  {
    if list != [] {
      VisitsInOrder(hook, Front(list), view);
      assert forall k :: 0 <= k < |list| - 1 ==> Front(list)[k] == list[k];
    }
  }
}
