/**
 * The heap side of the entity registry: GameObject.cs and World.cs as classes
 * whose fields the methods update in place.
 *
 * `World.Abs()` reads the world's lists and queues together with the cached
 * slots of every object the world has been told about; each method is proved
 * to move `Abs()` exactly as the matching function of module `Registry` does,
 * so the invariants proved there hold of the classes.
 */
module Scene {
  import opened Wrappers
  import opened Registry

  class GameObject {
    var updateIndex: int
    var drawIndex: int
    var tagIndices: map<string, int>
    var world: World?
    var worldId: int

    /** GameObject.cs:7-12: no slot in any list, no world, id 0. */
    constructor ()
      ensures Snapshot(null) == FreshCache && world == null
    {
      updateIndex := -1;
      drawIndex := -1;
      tagIndices := map[];
      world := null;
      worldId := 0;
    }

    /** GameObject.cs:30-33: a tag request to the object's world, none when it has no world. */
    method Tag(tagName: string)
      requires world != null ==> world.Mirrored()
      modifies world
      ensures world != null ==> world.Mirrored() && world.Abs() == Registry.Tag(old(world.Abs()), this, tagName, Snapshot(world))
    {
      if world != null {
        world.Tag(this, tagName);
      }
    }

    /** GameObject.cs:35-38. */
    method Untag(tagName: string)
      requires world != null ==> world.Mirrored()
      modifies world
      ensures world != null ==> world.Mirrored() && world.Abs() == Registry.Untag(old(world.Abs()), this, tagName, Snapshot(world))
    {
      if world != null {
        world.Untag(this, tagName);
      }
    }

    /** GameObject.cs:40-43. */
    method Remove()
      requires world != null ==> world.Mirrored()
      modifies world
      ensures world != null ==> world.Mirrored() && world.Abs() == Registry.RemoveObject(old(world.Abs()), this, Snapshot(world))
    {
      if world != null {
        world.RemoveObject(this);
      }
    }

    /** What `w` caches about this object. */
    function Snapshot(w: World?): Cache
      reads this
    {
      Cache(updateIndex, drawIndex, tagIndices, w != null && world == w, worldId)
    }
  }

  class World {
    var tags: map<string, seq<GameObject>>
    var updateList: seq<GameObject>
    var drawList: seq<GameObject>
    var addQueue: seq<AddRequest<GameObject>>
    var removeQueue: seq<GameObject>
    var tagAddQueue: seq<TagRequest<GameObject>>
    var tagRemoveQueue: seq<TagRequest<GameObject>>
    var nextId: int
    /** The lifecycle hooks this world has run, with the lists each one saw. */
    ghost var trace: seq<Event<GameObject>>
    /**
     * What the world knows of every object it has been handed, admitted or
     * not: a mirror of each object's own fields (GameObject.Snapshot).
     */
    ghost var cache: map<GameObject, Cache>

    /** The mirror agrees with the objects' fields. */
    ghost predicate Mirrored()
      reads this`cache, cache.Keys
    {
      forall o {:trigger o.Snapshot(this)} :: o in cache ==> cache[o] == o.Snapshot(this)
    }

    ghost function Abs(): State<GameObject>
      reads this
    {
      State(Lists(updateList, drawList, tags), cache, nextId,
            addQueue, removeQueue, tagAddQueue, tagRemoveQueue, trace)
    }

    /** The mirror holds and every cached slot is the object's position in its list. */
    ghost predicate Valid()
      reads this, cache.Keys
    {
      Mirrored() && SlotsValid(Abs())
    }

    /** World.cs:32-34: every list, table and queue empty, ids from 0. */
    constructor ()
      ensures Valid() && Abs() == State(Lists([], [], map[]), map[], 0, [], [], [], [], [])
    {
      tags := map[];
      updateList := [];
      drawList := [];
      addQueue := [];
      removeQueue := [];
      tagAddQueue := [];
      tagRemoveQueue := [];
      nextId := 0;
      trace := [];
      cache := map[];
    }

    /** Records slot `i` of tag `name` on a known object. */
    method PutTagSlot(o: GameObject, name: string, i: int)
      requires Mirrored() && o in cache
      modifies this`cache, o`tagIndices
      ensures Mirrored() && cache == old(cache)[o := old(cache)[o].(tagIndices := old(cache)[o].tagIndices[name := i])]
    {
      ghost var before := o.Snapshot(this);
      o.tagIndices := o.tagIndices[name := i];
      cache := cache[o := o.Snapshot(this)];
      forall p | p in cache
        ensures cache[p] == p.Snapshot(this)
      {
        assert p != o ==> old(p.Snapshot(this)) == p.Snapshot(this);
      }
    }

    /** Forgets the slot of tag `name` on a known object. */
    method DropTagSlot(o: GameObject, name: string)
      requires Mirrored() && o in cache
      modifies this`cache, o`tagIndices
      ensures Mirrored() && cache == old(cache)[o := old(cache)[o].(tagIndices := old(cache)[o].tagIndices - {name})]
    {
      ghost var before := o.Snapshot(this);
      o.tagIndices := o.tagIndices - {name};
      cache := cache[o := o.Snapshot(this)];
      forall p | p in cache
        ensures cache[p] == p.Snapshot(this)
      {
        assert p != o ==> old(p.Snapshot(this)) == p.Snapshot(this);
      }
    }

    /** Records update slot `i` on a known object. */
    method PutUpdateSlot(o: GameObject, i: int)
      requires Mirrored() && o in cache
      modifies this`cache, o`updateIndex
      ensures Mirrored() && cache == old(cache)[o := old(cache)[o].(updateIndex := i)]
    {
      ghost var before := o.Snapshot(this);
      o.updateIndex := i;
      cache := cache[o := o.Snapshot(this)];
      forall p | p in cache
        ensures cache[p] == p.Snapshot(this)
      {
        assert p != o ==> old(p.Snapshot(this)) == p.Snapshot(this);
      }
    }

    /** Records draw slot `i` on a known object. */
    method PutDrawSlot(o: GameObject, i: int)
      requires Mirrored() && o in cache
      modifies this`cache, o`drawIndex
      ensures Mirrored() && cache == old(cache)[o := old(cache)[o].(drawIndex := i)]
    {
      ghost var before := o.Snapshot(this);
      o.drawIndex := i;
      cache := cache[o := o.Snapshot(this)];
      forall p | p in cache
        ensures cache[p] == p.Snapshot(this)
      {
        assert p != o ==> old(p.Snapshot(this)) == p.Snapshot(this);
      }
    }

    /** World.cs:102-103: a known object now belongs to this world under id `id`. */
    method Enter(o: GameObject, id: int)
      requires Mirrored() && o in cache
      modifies this`cache, o`world, o`worldId
      ensures Mirrored() && cache == old(cache)[o := old(cache)[o].(admitted := true, worldId := id)]
    {
      ghost var before := o.Snapshot(this);
      o.world := this;
      o.worldId := id;
      cache := cache[o := o.Snapshot(this)];
      forall p | p in cache
        ensures cache[p] == p.Snapshot(this)
      {
        assert p != o ==> old(p.Snapshot(this)) == p.Snapshot(this);
      }
    }

    /** World.cs:45: hands out the counter's value and advances it. */
    method GetNextId() returns (id: int)
      modifies this`nextId
      ensures id == old(nextId) && nextId == old(nextId) + 1
    {
      id := nextId;
      nextId := nextId + 1;
    }

    /** World.cs:63-73. */
    method AddTag(obj: GameObject, tagName: string)
      requires Mirrored() && AddTagDefined(Abs(), obj, tagName)
      modifies this`tags, this`cache, obj`tagIndices
      ensures Mirrored() && Abs() == Registry.AddTag(old(Abs()), obj, tagName)
    {
      ghost var s := Abs();
      if tagName !in tags {
        tags := tags[tagName := []];
      }
      var tagList := tags[tagName];
      assert tagList == Get(s.lists.tags, tagName);
      PutTagSlot(obj, tagName, |tagList|);
      ghost var t0 := tags;
      tags := tags[tagName := tagList + [obj]];
      MapOverwrite(s.lists.tags, t0, tagName, tagList + [obj]);
      AddTagShape(s, obj, tagName, Abs());
    }

    /** World.cs:75-95. */
    method RemoveTag(obj: GameObject, tagName: string)
      requires Mirrored() && RemoveTagDefined(Abs(), obj, tagName)
      modifies this`tags, this`cache, cache.Keys`tagIndices
      ensures Mirrored() && Abs() == Registry.RemoveTag(old(Abs()), obj, tagName)
    {
      ghost var s := Abs();
      if tagName !in tags {
        return;
      }
      assert cache[obj] == obj.Snapshot(this);
      var index := obj.tagIndices[tagName];
      DropTagSlot(obj, tagName);
      var tagList := tags[tagName];
      if |tagList| == 0 {
        RemoveTagShape(s, obj, tagName, Abs());
        return;
      }
      var (rest, swapped) := SwapRemove(tagList, index);
      assert swapped in tagList;
      tags := tags[tagName := rest];
      // When obj is itself the last element this writes its key back.
      PutTagSlot(swapped, tagName, index);
      RemoveTagShape(s, obj, tagName, Abs());
    }

    /** World.cs:105-109: obj joins the end of the update list and records its slot. */
    method JoinUpdate(obj: GameObject)
      requires Mirrored() && obj in cache
      modifies this`updateList, this`cache, obj`updateIndex
      ensures updateList == old(updateList) + [obj]
      ensures Mirrored() && cache == old(cache)[obj := old(cache)[obj].(updateIndex := |updateList| - 1)]
    {
      updateList := updateList + [obj];
      PutUpdateSlot(obj, |updateList| - 1);
    }

    /** World.cs:111-115: obj joins the end of the draw list and records its slot. */
    method JoinDraw(obj: GameObject)
      requires Mirrored() && obj in cache
      modifies this`drawList, this`cache, obj`drawIndex
      ensures drawList == old(drawList) + [obj]
      ensures Mirrored() && cache == old(cache)[obj := old(cache)[obj].(drawIndex := |drawList| - 1)]
    {
      drawList := drawList + [obj];
      PutDrawSlot(obj, |drawList| - 1);
    }

    /** World.cs:100-117: one turn of FlushAddQueue's loop. */
    method Admit(info: AddRequest<GameObject>)
      requires Mirrored() && AdmitDefined(Abs(), info)
      modifies this`updateList, this`drawList, this`nextId, this`trace, this`cache
      modifies info.obj`world, info.obj`worldId, info.obj`updateIndex, info.obj`drawIndex
      ensures Mirrored() && Abs() == Registry.Admit(old(Abs()), info)
    {
      ghost var s := Abs();
      var obj := info.obj;
      var id := GetNextId();
      Enter(obj, id);
      ghost var entered := cache;
      if info.update {
        JoinUpdate(obj);
      }
      ghost var updated := cache;
      if info.draw {
        JoinDraw(obj);
      }
      trace := trace + [Event(OnAdd, obj, Lists(updateList, drawList, tags))];
      AdmitShape(s, info, entered, updated, Abs());
    }

    /** World.cs:97-120. */
    method FlushAddQueue()
      requires Mirrored() && Closed(Abs())
      modifies this`updateList, this`drawList, this`nextId, this`trace, this`addQueue, this`cache
      modifies cache.Keys`world, cache.Keys`worldId, cache.Keys`updateIndex, cache.Keys`drawIndex
      ensures Mirrored() && Abs() == FlushAdmits(old(Abs()))
    {
      AdmitAll();
      addQueue := [];
    }

    /** World.cs:99-118: the loop of FlushAddQueue, which leaves the queue itself alone. */
    method AdmitAll()
      requires Mirrored() && AdmitsDefined(Abs(), addQueue)
      modifies this`updateList, this`drawList, this`nextId, this`trace, this`cache
      modifies cache.Keys`world, cache.Keys`worldId, cache.Keys`updateIndex, cache.Keys`drawIndex
      ensures Mirrored() && Abs() == Admits(old(Abs()), addQueue)
    {
      ghost var s := Abs();
      for i := 0 to |addQueue|
        invariant addQueue == s.addQueue
        invariant Mirrored() && cache.Keys == s.cache.Keys
        invariant Abs() == Admits(s, s.addQueue[..i])
      {
        AdmitNext(s, i);
      }
      assert addQueue[..|addQueue|] == addQueue;
    }

    /** The i-th turn of FlushAddQueue's loop, stated on the fold over the queue. */
    method AdmitNext(ghost s: State<GameObject>, i: int)
      requires AdmitsDefined(s, s.addQueue) && 0 <= i < |s.addQueue| && addQueue == s.addQueue
      requires Mirrored() && cache.Keys == s.cache.Keys
      requires Abs() == Admits(s, s.addQueue[..i])
      modifies this`updateList, this`drawList, this`nextId, this`trace, this`cache
      modifies cache.Keys`world, cache.Keys`worldId, cache.Keys`updateIndex, cache.Keys`drawIndex
      ensures Mirrored() && cache.Keys == s.cache.Keys
      ensures Abs() == Admits(s, s.addQueue[..i + 1])
    {
      AdmitsStep(s, addQueue, i);
      Admit(addQueue[i]);
    }

    /** World.cs:128-132: leave the update list, patching the object moved into the gap. */
    method LeaveUpdate(obj: GameObject)
      requires Mirrored() && Closed(Abs()) && obj in cache
      requires cache[obj].updateIndex == -1 || 0 <= cache[obj].updateIndex < |updateList|
      modifies this`updateList, this`cache, cache.Keys`updateIndex
      ensures Mirrored() && Abs() == DropFromUpdate(old(Abs()), obj)
    {
      assert cache[obj] == obj.Snapshot(this);
      if obj.updateIndex != -1 {
        var (rest, swapped) := SwapRemove(updateList, obj.updateIndex);
        assert swapped in updateList;
        updateList := rest;
        PutUpdateSlot(swapped, obj.updateIndex);
      }
    }

    /** World.cs:134-138: leave the draw list, patching the object moved into the gap. */
    method LeaveDraw(obj: GameObject)
      requires Mirrored() && Closed(Abs()) && obj in cache
      requires cache[obj].drawIndex == -1 || 0 <= cache[obj].drawIndex < |drawList|
      modifies this`drawList, this`cache, cache.Keys`drawIndex
      ensures Mirrored() && Abs() == DropFromDraw(old(Abs()), obj)
    {
      assert cache[obj] == obj.Snapshot(this);
      if obj.drawIndex != -1 {
        var (rest, swapped) := SwapRemove(drawList, obj.drawIndex);
        assert swapped in drawList;
        drawList := rest;
        PutDrawSlot(swapped, obj.drawIndex);
      }
    }

    /**
     * World.cs:140-143: RemoveTag for every key obj holds.  The keys are taken
     * once up front; RetireDefined rules out the key being written back while
     * the enumeration runs.
     */
    method LeaveTags(obj: GameObject)
      requires Mirrored() && Closed(Abs()) && obj in cache
      requires TagSlotsInRange(Abs(), obj, cache[obj].tagIndices.Keys)
      modifies this`tags, this`cache, cache.Keys`tagIndices
      ensures Mirrored() && Abs() == DropTags(old(Abs()), obj, old(cache[obj].tagIndices.Keys))
    {
      ghost var s := Abs();
      assert cache[obj] == obj.Snapshot(this);
      var remaining := obj.tagIndices.Keys;
      // The keys in the order the enumeration visits them.
      ghost var order: seq<string> := [];
      while remaining != {}
        invariant Mirrored() && cache.Keys == s.cache.Keys
        invariant forall i, j :: 0 <= i < j < |order| ==> order[i] != order[j]
        invariant forall u :: u in order <==> u in s.cache[obj].tagIndices && u !in remaining
        invariant remaining <= s.cache[obj].tagIndices.Keys
        invariant Untags(s, obj, order) == Some(Abs())
        decreases |remaining|
      {
        var t :| t in remaining;
        UntagsNext(s, obj, order, t);
        RemoveTag(obj, t);
        remaining := remaining - {t};
        order := order + [t];
      }
      UntagsEveryKey(s, obj, order);
    }

    /** World.cs:124-145: one turn of FlushRemoveQueue's loop. */
    method Retire(obj: GameObject)
      requires Mirrored() && RetireDefined(Abs(), obj)
      modifies this`updateList, this`drawList, this`tags, this`trace, this`cache
      modifies cache.Keys`updateIndex, cache.Keys`drawIndex, cache.Keys`tagIndices
      ensures Mirrored() && Abs() == Registry.Retire(old(Abs()), obj)
    {
      ghost var s := Abs();
      trace := trace + [Event(OnRemove, obj, Lists(updateList, drawList, tags))];
      LeaveUpdate(obj);
      LeaveDraw(obj);
      assert cache[obj].tagIndices == s.cache[obj].tagIndices;
      UntagsEveryKey(Abs(), obj, KeyOrder(s.cache[obj].tagIndices.Keys));
      LeaveTags(obj);
    }

    /** World.cs:122-148. */
    method FlushRemoveQueue()
      requires Mirrored() && RetiresDefined(Abs(), removeQueue)
      modifies this`updateList, this`drawList, this`tags, this`trace, this`removeQueue, this`cache
      modifies cache.Keys`updateIndex, cache.Keys`drawIndex, cache.Keys`tagIndices
      ensures Mirrored() && Abs() == FlushRetires(old(Abs()))
    {
      RetireAll();
      removeQueue := [];
    }

    /** World.cs:124-146: the loop of FlushRemoveQueue, which leaves the queue itself alone. */
    method RetireAll()
      requires Mirrored() && RetiresDefined(Abs(), removeQueue)
      modifies this`updateList, this`drawList, this`tags, this`trace, this`cache
      modifies cache.Keys`updateIndex, cache.Keys`drawIndex, cache.Keys`tagIndices
      ensures Mirrored() && Retires(old(Abs()), removeQueue) == Some(Abs())
    {
      ghost var s := Abs();
      for i := 0 to |removeQueue|
        invariant removeQueue == s.removeQueue
        invariant Mirrored() && cache.Keys == s.cache.Keys
        invariant Retires(s, s.removeQueue[..i]) == Some(Abs())
      {
        RetireNext(s, i);
      }
      assert removeQueue[..|removeQueue|] == removeQueue;
    }

    /** The i-th turn of FlushRemoveQueue's loop, stated on the fold over the queue. */
    method RetireNext(ghost s: State<GameObject>, i: int)
      requires Retires(s, s.removeQueue).Some? && 0 <= i < |s.removeQueue| && removeQueue == s.removeQueue
      requires Mirrored() && cache.Keys == s.cache.Keys
      requires Retires(s, s.removeQueue[..i]) == Some(Abs())
      modifies this`updateList, this`drawList, this`tags, this`trace, this`cache
      modifies cache.Keys`updateIndex, cache.Keys`drawIndex, cache.Keys`tagIndices
      ensures Mirrored() && cache.Keys == s.cache.Keys
      ensures Retires(s, s.removeQueue[..i + 1]) == Some(Abs())
    {
      RetiresStep(s, removeQueue, i);
      Retire(removeQueue[i]);
    }
    /** World.cs:152-154: every queued tag request applied in order, then the queue cleared. */
    method FlushTagAdds()
      requires Mirrored() && TagAddsDefined(Abs(), tagAddQueue)
      modifies this`tags, this`cache, this`tagAddQueue, cache.Keys`tagIndices
      ensures Mirrored() && Abs() == Registry.FlushTagAdds(old(Abs()))
    {
      TagAddAll();
      tagAddQueue := [];
    }

    /** World.cs:152-153: the loop over the tag-add queue. */
    method TagAddAll()
      requires Mirrored() && TagAddsDefined(Abs(), tagAddQueue)
      modifies this`tags, this`cache, cache.Keys`tagIndices
      ensures Mirrored() && TagAdds(old(Abs()), tagAddQueue) == Some(Abs())
    {
      ghost var s := Abs();
      for i := 0 to |tagAddQueue|
        invariant tagAddQueue == s.tagAddQueue
        invariant Mirrored() && cache.Keys == s.cache.Keys
        invariant TagAdds(s, s.tagAddQueue[..i]) == Some(Abs())
      {
        TagAddNext(s, i);
      }
      assert tagAddQueue[..|tagAddQueue|] == tagAddQueue;
    }

    /** The i-th turn of the tag-add loop, stated on the fold over the queue. */
    method TagAddNext(ghost s: State<GameObject>, i: int)
      requires TagAdds(s, s.tagAddQueue).Some? && 0 <= i < |s.tagAddQueue| && tagAddQueue == s.tagAddQueue
      requires Mirrored() && cache.Keys == s.cache.Keys
      requires TagAdds(s, s.tagAddQueue[..i]) == Some(Abs())
      modifies this`tags, this`cache, cache.Keys`tagIndices
      ensures Mirrored() && cache.Keys == s.cache.Keys
      ensures TagAdds(s, s.tagAddQueue[..i + 1]) == Some(Abs())
    {
      TagAddsStep(s, tagAddQueue, i);
      AddTag(tagAddQueue[i].obj, tagAddQueue[i].tagName);
    }

    /** World.cs:156-158: every queued untag request applied in order, then the queue cleared. */
    method FlushTagRemoves()
      requires Mirrored() && TagRemovesDefined(Abs(), tagRemoveQueue)
      modifies this`tags, this`cache, this`tagRemoveQueue, cache.Keys`tagIndices
      ensures Mirrored() && Abs() == Registry.FlushTagRemoves(old(Abs()))
    {
      TagRemoveAll();
      tagRemoveQueue := [];
    }

    /** World.cs:156-157: the loop over the tag-remove queue. */
    method TagRemoveAll()
      requires Mirrored() && TagRemovesDefined(Abs(), tagRemoveQueue)
      modifies this`tags, this`cache, cache.Keys`tagIndices
      ensures Mirrored() && TagRemoves(old(Abs()), tagRemoveQueue) == Some(Abs())
    {
      ghost var s := Abs();
      for i := 0 to |tagRemoveQueue|
        invariant tagRemoveQueue == s.tagRemoveQueue
        invariant Mirrored() && cache.Keys == s.cache.Keys
        invariant TagRemoves(s, s.tagRemoveQueue[..i]) == Some(Abs())
      {
        TagRemoveNext(s, i);
      }
      assert tagRemoveQueue[..|tagRemoveQueue|] == tagRemoveQueue;
    }

    /** The i-th turn of the tag-remove loop, stated on the fold over the queue. */
    method TagRemoveNext(ghost s: State<GameObject>, i: int)
      requires TagRemoves(s, s.tagRemoveQueue).Some? && 0 <= i < |s.tagRemoveQueue| && tagRemoveQueue == s.tagRemoveQueue
      requires Mirrored() && cache.Keys == s.cache.Keys
      requires TagRemoves(s, s.tagRemoveQueue[..i]) == Some(Abs())
      modifies this`tags, this`cache, cache.Keys`tagIndices
      ensures Mirrored() && cache.Keys == s.cache.Keys
      ensures TagRemoves(s, s.tagRemoveQueue[..i + 1]) == Some(Abs())
    {
      TagRemovesStep(s, tagRemoveQueue, i);
      RemoveTag(tagRemoveQueue[i].obj, tagRemoveQueue[i].tagName);
    }

    /** World.cs:150-162: the four phases in their order. */
    method FlushQueues()
      requires Mirrored() && FlushDefined(Abs())
      modifies this, cache.Keys
      ensures Mirrored() && Abs() == Registry.FlushQueues(old(Abs()))
      ensures old(Valid()) && FlushSound(old(Abs())) ==> Valid()
    {
      ghost var before := Abs();
      if SlotsValid(before) && FlushSound(before) {
        FlushKeepsSlots(before);
      }
      FlushTagAdds();
      FlushTagRemoves();
      FlushAddQueue();
      FlushRemoveQueue();
    }

    /** The world learns of obj: the mirror gains obj's fields the first time it is handed obj. */
    ghost method Know(obj: GameObject)
      requires Mirrored()
      modifies this`cache
      ensures Mirrored() && Abs() == Registry.Know(old(Abs()), obj, obj.Snapshot(this))
    {
      if obj !in cache {
        cache := cache[obj := obj.Snapshot(this)];
      }
    }

    /** World.cs:164-171. */
    method AddObject(obj: GameObject, update: bool := true, draw: bool := true)
      requires Mirrored()
      modifies this`addQueue, this`cache
      ensures Mirrored() && Abs() == Registry.AddObject(old(Abs()), obj, update, draw, obj.Snapshot(this))
    {
      Know(obj);
      addQueue := addQueue + [AddRequest(obj, update, draw)];
    }

    /** World.cs:173-176. */
    method RemoveObject(obj: GameObject)
      requires Mirrored()
      modifies this`removeQueue, this`cache
      ensures Mirrored() && Abs() == Registry.RemoveObject(old(Abs()), obj, obj.Snapshot(this))
    {
      Know(obj);
      removeQueue := removeQueue + [obj];
    }

    /** World.cs:178-184. */
    method Tag(obj: GameObject, tagName: string)
      requires Mirrored()
      modifies this`tagAddQueue, this`cache
      ensures Mirrored() && Abs() == Registry.Tag(old(Abs()), obj, tagName, obj.Snapshot(this))
    {
      Know(obj);
      tagAddQueue := tagAddQueue + [TagRequest(obj, tagName)];
    }

    /** World.cs:186-195: the check reads obj's own TagIndices, not the world's lists. */
    method Untag(obj: GameObject, tagName: string)
      requires Mirrored()
      modifies this`tagRemoveQueue, this`cache
      ensures Mirrored() && Abs() == Registry.Untag(old(Abs()), obj, tagName, obj.Snapshot(this))
    {
      if tagName !in obj.tagIndices {
        return;
      }
      Know(obj);
      tagRemoveQueue := tagRemoveQueue + [TagRequest(obj, tagName)];
    }

    /** World.cs:197-202. */
    method GetTagged(tagName: string) returns (r: seq<GameObject>)
      ensures r == Tagged(Abs(), tagName)
    {
      if tagName !in tags {
        return [];
      }
      return tags[tagName];
    }

    /** World.cs:47-53: OnUpdate on every object of the update list, in list order. */
    method Update()
      modifies this`trace
      ensures trace == old(trace) + Visits(OnUpdate, updateList, Lists(updateList, drawList, tags))
    {
      ghost var view := Lists(updateList, drawList, tags);
      for i := 0 to |updateList|
        invariant trace == old(trace) + Visits(OnUpdate, updateList[..i], view)
      {
        assert Front(updateList[..i + 1]) == updateList[..i];
        trace := trace + [Event(OnUpdate, updateList[i], view)];
      }
      assert updateList[..|updateList|] == updateList;
    }

    /** World.cs:55-61: OnDraw on every object of the draw list, in list order. */
    method Draw()
      modifies this`trace
      ensures trace == old(trace) + Visits(OnDraw, drawList, Lists(updateList, drawList, tags))
    {
      ghost var view := Lists(updateList, drawList, tags);
      for i := 0 to |drawList|
        invariant trace == old(trace) + Visits(OnDraw, drawList[..i], view)
      {
        assert Front(drawList[..i + 1]) == drawList[..i];
        trace := trace + [Event(OnDraw, drawList[i], view)];
      }
      assert drawList[..|drawList|] == drawList;
    }
  }

  /** Overwriting a key hides whether it was first added with a placeholder. */
  lemma MapOverwrite<K, V>(m: map<K, V>, m0: map<K, V>, k: K, v: V)
    requires m0 == m || (k in m0 && m0 == m[k := m0[k]])
    ensures m0[k := v] == m[k := v]
  {
  }

  lemma AddTagShape<O>(s: State<O>, obj: O, name: string, a: State<O>)
    requires AddTagDefined(s, obj, name)
    requires a.lists.tags == s.lists.tags[name := Get(s.lists.tags, name) + [obj]]
    requires a.cache == s.cache[obj := s.cache[obj].(tagIndices := s.cache[obj].tagIndices[name := |Get(s.lists.tags, name)|])]
    requires a.lists.update == s.lists.update && a.lists.draw == s.lists.draw && Unqueued(a, s)
    ensures a == Registry.AddTag(s, obj, name)
  {
  }

  lemma RemoveTagShape<O>(s: State<O>, obj: O, name: string, a: State<O>)
    requires RemoveTagDefined(s, obj, name) && name in s.lists.tags
    requires var list := s.lists.tags[name];
      a.lists.tags == if |list| == 0 then s.lists.tags
                      else s.lists.tags[name := SwapRemove(list, s.cache[obj].tagIndices[name]).0]
    requires var list := s.lists.tags[name];
      var index := s.cache[obj].tagIndices[name];
      var dropped := s.cache[obj := s.cache[obj].(tagIndices := s.cache[obj].tagIndices - {name})];
      a.cache == if |list| == 0 then dropped
                 else dropped[Last(list) := dropped[Last(list)].(tagIndices := dropped[Last(list)].tagIndices[name := index])]
    requires a.lists.update == s.lists.update && a.lists.draw == s.lists.draw && Unqueued(a, s)
    ensures a == Registry.RemoveTag(s, obj, name)
  {
  }

  /** Admission split at the points where its fields are written. */
  lemma AdmitShape<O>(s: State<O>, r: AddRequest<O>, entered: map<O, Cache>, updated: map<O, Cache>, a: State<O>)
    requires AdmitDefined(s, r)
    requires entered == s.cache[r.obj := s.cache[r.obj].(admitted := true, worldId := s.nextId)]
    requires a.lists.update == if r.update then s.lists.update + [r.obj] else s.lists.update
    requires updated == if r.update then entered[r.obj := entered[r.obj].(updateIndex := |a.lists.update| - 1)] else entered
    requires a.lists.draw == if r.draw then s.lists.draw + [r.obj] else s.lists.draw
    requires a.cache == if r.draw then updated[r.obj := updated[r.obj].(drawIndex := |a.lists.draw| - 1)] else updated
    requires a.lists.tags == s.lists.tags && a.nextId == s.nextId + 1
    requires a.addQueue == s.addQueue && a.removeQueue == s.removeQueue
    requires a.tagAddQueue == s.tagAddQueue && a.tagRemoveQueue == s.tagRemoveQueue
    requires a.trace == s.trace + [Event(OnAdd, r.obj, a.lists)]
    ensures a == Registry.Admit(s, r)
  {
  }
}
