/** `HostStorageTracker` as objects: items that are replaced by loaded trackers in place,
    written through, and uploaded bottom-up. Each object carries the tracker value of
    `HostStorage` it stands for. */
module HostStorageTracker {
  import opened Common
  import opened HostStorage
  import opened HostStorageTree

  datatype ItemObject = OLit(l: Literal) | OText(e: EncFile) | OBytes(e: EncFile)
                      | ORef(isArray: bool, e: EncFile) | OSub(isArray: bool, sub: TrackerObject) | OStray(x: Stray)

  function ItemObjectOf(i: Stored): ItemObject {
    match i
    case SLit(l) => OLit(l)
    case SText(e) => OText(e)
    case SBytes(e) => OBytes(e)
    case SObject(a, e) => ORef(a, e)
    case SStray(x) => OStray(x)
  }

  ghost predicate Shows(i: ItemObject, m: Item) {
    match i
    case OLit(l) => m == ILit(l)
    case OText(e) => m == IText(e)
    case OBytes(e) => m == IBytes(e)
    case ORef(a, e) => m == IRef(a, e)
    case OSub(a, _) => m.ISub? && m.isArray == a
    case OStray(x) => m == IStray(x)
  }

  // --------------------------------------------------- what lazy loading may change

  /** An item in JSON; a loaded tracker is replaced by its file. */
  function SerializedItem(i: ItemObject): Stored
    requires i.OSub? ==> i.sub.encFile.Some?
    reads if i.OSub? then {i.sub} else {}
  {
    match i
    case OLit(l) => SLit(JsonRound(l))
    case OText(e) => SText(e)
    case OBytes(e) => SBytes(e)
    case ORef(a, e) => SObject(a, e)
    case OSub(a, sub) => SObject(a, sub.encFile.value)
    case OStray(x) => SStray(JsonStray(x))
  }

  /** `t'` is `t` with some references, at any depth, replaced by what they refer to. */
  predicate LoadsTo(s: Store, t: Tracker, t': Tracker)
    decreases t'
  {
    && t'.encFile == t.encFile && t'.items.Keys == t.items.Keys
    && forall k :: k in t.items ==> LoadsItem(s, t.items[k], t'.items[k])
  }

  predicate LoadsItem(s: Store, i: Item, i': Item)
    decreases i'
  {
    i' == i ||
    (i'.ISub? && (i.IRef? || i.ISub?) && i.isArray == i'.isArray
     && Child(s, i).Some? && LoadsTo(s, Child(s, i).value, i'.sub))
  }

  /** Lazy loading never changes what any `get` returns, nor what is uploaded. */
  lemma {:induction false} LoadingKeepsView(s: Store, t: Tracker, t': Tracker)
    requires StoreOk(s) && Sound(s, t) && LoadsTo(s, t, t')
    ensures Sound(s, t') && View(s, t') == View(s, t)
    ensures Serialized(t') == Serialized(t)
    decreases t'
  {
    hide StoreOk, View, Child;
    forall k | k in t.items
      ensures ItemOk(s, t'.items[k]) && ItemValue(s, t'.items[k]) == ItemValue(s, t.items[k])
      ensures t'.items[k].ISub? ==> t'.items[k].sub.encFile.Some?
    {
      LoadedItemKeepsValue(s, t, t.items[k], t'.items[k], k);
    }
    ViewByItems(s, t, t');
    forall k | k in t.items ensures StoredOf(t'.items[k]) == StoredOf(t.items[k]) {
      LoadedItemKeepsValue(s, t, t.items[k], t'.items[k], k);
    }
  }

  lemma ViewByItems(s: Store, t: Tracker, t': Tracker)
    requires StoreOk(s) && Sound(s, t) && Sound(s, t') && t'.items.Keys == t.items.Keys
    requires forall k :: k in t.items ==> ItemValue(s, t'.items[k]) == ItemValue(s, t.items[k])
    ensures View(s, t') == View(s, t)
  {
  }

  lemma {:induction false} LoadedItemKeepsValue(s: Store, t: Tracker, i: Item, i': Item, k: string)
    requires StoreOk(s) && Sound(s, t) && k in t.items && i == t.items[k] && LoadsItem(s, i, i')
    ensures ItemOk(s, i') && ItemValue(s, i') == ItemValue(s, i)
    ensures (i'.ISub? ==> i'.sub.encFile.Some?) && StoredOf(i') == StoredOf(i)
    decreases i'
  {
    if i' != i {
      ChildView(s, t, k);
      LoadingKeepsView(s, Child(s, i).value, i'.sub);
    }
  }

  lemma LoadsToReflexive(s: Store, t: Tracker)
    ensures LoadsTo(s, t, t)
  {
  }

  lemma SubIsUploaded(t: Tracker, k: string)
    requires Uploaded(t) && k in t.items && t.items[k].ISub?
    ensures Uploaded(t.items[k].sub)
  {
  }

  lemma LoadsThroughChild(s: Store, t: Tracker, k: string, sub: Tracker)
    requires k in t.items && Child(s, t.items[k]).Some? && (t.items[k].IRef? || t.items[k].ISub?)
    requires LoadsTo(s, Child(s, t.items[k]).value, sub)
    ensures LoadsTo(s, t, t.(items := t.items[k := ISub(t.items[k].isArray, sub)]))
  {
    var t' := t.(items := t.items[k := ISub(t.items[k].isArray, sub)]);
    forall x | x in t.items ensures LoadsItem(s, t.items[x], t'.items[x]) {
    }
  }

  /** The cases of `SetAt` with more than one key. */
  lemma SetAtSteps(env: Env, s: Store, t: Tracker, path: seq<string>, v: JsValue)
    requires Uploaded(t) && |path| > 1
    ensures path[0] !in t.items || Child(s, t.items[path[0]]).None? ==>
      SetAt(env, s, t, path, v) == Thrown(t, s) && LoadedAt(s, t, path[0]) == t
    ensures path[0] in t.items && Child(s, t.items[path[0]]).Some? ==>
      var child := Child(s, t.items[path[0]]).value;
      && (t.items[path[0]].IRef? || t.items[path[0]].ISub?) && Uploaded(child)
      && var r := SetAt(env, s, child, path[1..], v);
      var t1 := t.(items := t.items[path[0] := ISub(t.items[path[0]].isArray, r.t)]);
      && (r.Done? ==> Uploaded(t1))
      && SetAt(env, s, t, path, v) == if r.Done? then Finish(env, r.s, t1) else Thrown(t1, r.s)
  {
    hide Finish, SetKey;
    if path[0] in t.items && Child(s, t.items[path[0]]).Some? {
    }
  }

  lemma LoadedAtStep(s: Store, t: Tracker, k: string)
    requires k in t.items
    ensures LoadsTo(s, t, LoadedAt(s, t, k)) && k in LoadedAt(s, t, k).items
    ensures var i := LoadedAt(s, t, k).items[k];
      && (i.ISub? <==> Child(s, t.items[k]).Some?)
      && (i.ISub? ==> i.isArray == t.items[k].isArray && i.sub == Child(s, t.items[k]).value)
  {
    var t' := LoadedAt(s, t, k);
    forall x | x in t.items ensures LoadsItem(s, t.items[x], t'.items[x]) {
      if t'.items[x] != t.items[x] {
        LoadsToReflexive(s, t'.items[x].sub);
      }
    }
  }

  lemma ViewAt(s: Store, t: Tracker, k: string)
    requires StoreOk(s) && Sound(s, t)
    ensures k in View(s, t) <==> k in t.items
    ensures k in t.items ==> ItemOk(s, t.items[k]) && View(s, t)[k] == ItemValue(s, t.items[k])
  {
  }

  lemma LookupOne(m: map<string, Value>, k: string)
    requires k in m
    ensures Lookup(m, [k]) == if Readable(m[k]) then Got(m[k]) else Threw
  {
  }

  lemma UnreadableItem(m: map<string, Value>, k: string)
    requires k in m && !Readable(m[k])
    ensures !Readable(VObject(m))
  {
  }

  lemma AllReadable(m: map<string, Value>)
    requires forall k :: k in m ==> Readable(m[k])
    ensures Readable(VObject(m))
  {
  }

  lemma {:induction false} LoadsToTransitive(s: Store, a: Tracker, b: Tracker, c: Tracker)
    requires LoadsTo(s, a, b) && LoadsTo(s, b, c)
    ensures LoadsTo(s, a, c)
    decreases c
  {
    forall k | k in a.items ensures LoadsItem(s, a.items[k], c.items[k]) {
      assert LoadsItem(s, a.items[k], b.items[k]) && LoadsItem(s, b.items[k], c.items[k]);
      if b.items[k] != a.items[k] && c.items[k] != b.items[k] {
        LoadsToTransitive(s, Child(s, a.items[k]).value, b.items[k].sub, c.items[k].sub);
      }
    }
  }

  lemma LoadedThenPut(s: Store, t: Tracker, k: string, i: Item)
    requires k in t.items
    ensures LoadedAt(s, t, k).(items := LoadedAt(s, t, k).items[k := i]) == t.(items := t.items[k := i])
  {
  }

  lemma SetNothing(env: Env, s: Store, t: Tracker, v: JsValue)
    requires Uploaded(t)
    ensures SetAt(env, s, t, [], v) == Thrown(t, s)
  {
  }

  lemma SetOneKey(env: Env, s: Store, t: Tracker, path: seq<string>, v: JsValue)
    requires Uploaded(t) && |path| == 1
    ensures SetAt(env, s, t, path, v) == SetKey(env, s, t, path[0], v)
  {
    hide SetKey;
  }

  lemma StoredShows(x: Stored)
    ensures Shows(ItemObjectOf(x), ItemOf(x)) && !ItemObjectOf(x).OSub?
  {
  }

  lemma SubShows(i: ItemObject, m: Item)
    requires i.OSub? && m.ISub? && m.isArray == i.isArray
    ensures Shows(i, m)
  {
  }

  lemma PlainAssigned(items: map<string, Item>, k: string, i: Item)
    requires i.ISub? ==> i.sub.encFile.Some?
    ensures k != PROTO ==> Assigned(items, k, i) == items[k := i]
  {
  }

  lemma BlockedKey(env: Env, s: Store, t: Tracker, k: string, v: JsValue)
    requires Uploaded(t)
    ensures !CanLoad(s, t, k) ==> SetKey(env, s, t, k, v) == Thrown(t, s)
  {
  }

  lemma CannotLoad(s: Store, t: Tracker, k: string)
    requires !CanLoad(s, t, k)
    ensures LoadedAt(s, t, k) == t
  {
  }

  lemma {:induction false} BuildThrown(env: Env, s: Store, v: JsValue, i: nat, n: nat)
    requires i <= n <= EntryCount(v) && Build(env, s, v, i).Thrown?
    ensures Build(env, s, v, n) == Build(env, s, v, i)
    decreases n
  {
    hide SetKey;
    if i == n {
    } else {
      BuildThrown(env, s, v, i, n - 1);
    }
  }

  /** No tracker on the path has, off the path, a stray that cannot be serialised. */
  predicate Unbroken(m: map<string, Value>, path: seq<string>)
    decreases |path|
  {
    path != [] ==>
      && (forall k :: k in m && k != path[0] ==> !BreaksValue(m[k]))
      && (path[0] in m && m[path[0]].VObject? ==> Unbroken(m[path[0]].items, path[1..]))
  }

  /** A plain write that throws, where nothing else keeps trackers from being serialised,
      has changed nothing but what was loaded on the way, and has stored nothing. */
  lemma {:induction false} PlainThrowOnlyLoads(env: Env, s: Store, t: Tracker, path: seq<string>, v: JsValue)
    requires StoreOk(s) && Sound(s, t) && Uploaded(t) && PlainWrite(path, v) && Unbroken(View(s, t), path)
    requires var r := SetAt(env, s, t, path, v); r.Thrown? && !r.s.collided
    ensures var r := SetAt(env, s, t, path, v); r.s == s && LoadsTo(s, t, r.t)
    decreases |path|
  {
    hide StoreOk, Sound, View, SetKey, Finish, Child, ItemOk, ItemValue, LoadsTo, NoProto, Meaning, Extends, Synced,
      BreaksValue, CanLoad;
    LoadsToReflexive(s, t);
    if |path| == 1 {
      SoundLoads(s, t, path[0]);
      BlockedKey(env, s, t, path[0], v);
      SetKeyMeans(env, s, t, path[0], v);
    } else {
      ViewKeys(s, t);
      SetAtSteps(env, s, t, path, v);
      if path[0] in t.items && Child(s, t.items[path[0]]).Some? {
        ChildView(s, t, path[0]);
        var child := Child(s, t.items[path[0]]).value;
        var r := SetAt(env, s, child, path[1..], v);
        if r.Done? {
          PathKeyIsPlain(s, t, path[0]);
          SetRefinesUpdate(env, s, child, path[1..], v);
          SubItem(r.s, ISub(t.items[path[0]].isArray, r.t));
          AssignAndFinish(env, s, r.s, t, path[0], ISub(t.items[path[0]].isArray, r.t));
          assert false;
        } else {
          PlainThrowOnlyLoads(env, s, child, path[1..], v);
          LoadsThroughChild(s, t, path[0], r.t);
        }
      }
    }
  }

  class TrackerObject {
    var items: map<string, ItemObject>
    var encFile: Option<EncFile>
    ghost var model: Tracker
    ghost var repr: set<TrackerObject>

    ghost predicate Valid()
      reads this, repr
      decreases repr
    {
      && this in repr && Shape() && Apart()
      && (forall k :: k in items && items[k].OSub? ==>
            items[k].sub in repr && Owns(k) && items[k].sub.Valid())
    }

    ghost predicate Shape()
      reads this
    {
      && model.encFile == encFile && model.items.Keys == items.Keys
      && forall k :: k in items ==> Shows(items[k], model.items[k])
    }

    /** The children do not share any object. */
    ghost predicate Apart()
      reads this, repr
    {
      forall k, k' :: k in items && k' in items && k != k' && items[k].OSub? && items[k'].OSub?
                      && items[k].sub in repr && items[k'].sub in repr ==>
        items[k].sub.repr !! items[k'].sub.repr
    }

    /** The child at `k` is an object of its own, below this one, and shows its value. */
    ghost predicate Owns(k: string)
      requires k in items && items[k].OSub?
      reads this, items[k].sub
    {
      var o := items[k].sub;
      && o in repr && o.repr <= repr && this !in o.repr
      && k in model.items && model.items[k] == ISub(items[k].isArray, o.model)
    }

    lemma BecomesValid()
      requires this in repr && Shape() && Apart()
      requires forall k :: k in items && items[k].OSub? ==> Owns(k) && items[k].sub.Valid()
      ensures Valid()
    {
    }

    lemma PartsOfValid()
      requires Valid()
      ensures this in repr && Shape() && Apart()
      ensures forall k :: k in items && items[k].OSub? ==> Owns(k) && items[k].sub.Valid()
    {
    }

    lemma ShowsAt(k: string)
      requires Valid() && k in items
      ensures k in model.items && Shows(items[k], model.items[k])
    {
    }

    lemma SameKeys()
      requires Valid()
      ensures this in repr && model.items.Keys == items.Keys
    {
    }

    constructor ()
      ensures Valid() && fresh(repr) && model == Tracker(map[], None)
    {
      items, encFile := map[], None;
      model, repr := Tracker(map[], None), {this};
    }

    constructor FromDownload(s: Store, e: EncFile)
      requires RefersTo(s, e) && s.blobs[e.id].plain.PItems?
      ensures Valid() && fresh(repr) && model == Downloaded(s, e)
    {
      hide ItemObjectOf, ItemOf, Shows;
      var stored := s.blobs[e.id].plain.items;
      items := map k | k in stored :: ItemObjectOf(stored[k]);
      encFile := Some(e);
      model, repr := Downloaded(s, e), {this};
      new;
      hide Valid;
      forall k | k in items ensures Shows(items[k], model.items[k]) && !items[k].OSub? {
        StoredShows(stored[k]);
      }
      BecomesValid();
    }

    lemma SerializedKeys()
      requires Valid() && Uploaded(model)
      ensures KidsUploaded(model) && Serialized(model).Keys == items.Keys
    {
    }

    lemma ItemSerializes(k: string)
      requires Valid() && Uploaded(model) && k in items
      ensures k in model.items && (items[k].OStray? <==> model.items[k].IStray?)
      ensures items[k].OStray? ==> items[k].x == model.items[k].x
      ensures items[k].OSub? ==> items[k].sub.encFile.Some?
      ensures SerializedItem(items[k]) == Serialized(model)[k]
    {
      if items[k].OSub? {
        items[k].sub.PartsOfValid();
      }
    }

    /** `serialize`: the children are uploaded already, so none has to be here. It throws at
        a stray item that is null or undefined. */
    method Serialize() returns (ok: bool, stored: map<string, Stored>)
      requires Valid() && Uploaded(model)
      ensures ok <==> Serializable(model)
      ensures ok ==> stored == Serialized(model)
    {
      hide Valid, Uploaded, KidsUploaded, Serialized, SerializedItem, Breaks;
      SameKeys();
      SerializedKeys();
      ghost var all := Serialized(model);
      ok, stored := true, map[];
      var todo := items.Keys;
      while todo != {}
        invariant todo <= items.Keys && stored.Keys == items.Keys - todo
        invariant forall k :: k in stored ==> !(model.items[k].IStray? && Breaks(model.items[k].x))
        invariant forall k :: k in stored ==> stored[k] == all[k]
        decreases todo
      {
        var k :| k in todo;
        ItemSerializes(k);
        todo := todo - {k};
        if items[k].OStray? && Breaks(items[k].x) {
          return false, stored;
        }
        stored := stored[k := SerializedItem(items[k])];
      }
    }

    method UploadSelf(env: Env, s: Store, forced: Option<nat>) returns (ok: bool, s': Store)
      requires Valid() && Uploaded(model)
      modifies this`encFile, this`model
      ensures Valid() && (ok <==> Serializable(old(model)))
      ensures ok ==> (model, s') == Upload(env, s, old(model), forced)
      ensures !ok ==> model == old(model) && s' == s
    {
      hide Valid, Encrypt, Shows, Uploaded, Serializable;
      PartsOfValid();
      var stored;
      ok, stored := Serialize();
      s' := s;
      if ok {
        var r := Encrypt(env, s, PItems(stored), forced);
        s' := r.1;
        encFile := Some(r.0);
        model := model.(encFile := Some(r.0));
        forall x | x in items && items[x].OSub?
          ensures Owns(x) && items[x].sub.Valid()
        {
          assert old(Owns(x));
        }
        BecomesValid();
      }
    }

    /** Assigns an item whose objects, if any, are new. */
    method PutItem(k: string, i: ItemObject, ghost m: Item)
      requires Valid() && Shows(i, m)
      requires i.OSub? ==> i.sub.Valid() && i.sub.repr !! repr && m.sub == i.sub.model
      modifies this`items, this`model, this`repr
      ensures Valid() && model == old(model).(items := old(model).items[k := m])
      ensures repr == old(repr) + if i.OSub? then i.sub.repr else {}
      ensures items == old(items)[k := i]
    {
      hide Valid;
      PartsOfValid();
      if i.OSub? {
        i.sub.PartsOfValid();
      }
      items := items[k := i];
      model := model.(items := model.items[k := m]);
      repr := repr + if i.OSub? then i.sub.repr else {};
      forall x | x in items && items[x].OSub?
        ensures Owns(x) && items[x].sub.Valid()
      {
        if x != k {
          assert old(Owns(x));
        }
      }
      forall x, y | x in items && y in items && x != y && items[x].OSub? && items[y].OSub?
        ensures items[x].sub.repr !! items[y].sub.repr
      {
        assert x != k ==> old(Owns(x));
        assert y != k ==> old(Owns(y));
      }
      BecomesValid();
    }

    /** The tag and the stray value of an item. */
    static method StraysIn(i: ItemObject, ghost m: Item) returns (t: char, v: Stray)
      requires Shows(i, m)
      requires i.OSub? ==> i.sub.Shape() && m.sub == i.sub.model && m.sub.encFile.Some?
      ensures t == TagOf(m) && v == StrayOf(m)
    {
      match i
      case OLit(l) => t, v := 'L', LiteralStray(l);
      case OText(e) => t, v := 'S', FileStray(e);
      case OBytes(e) => t, v := 'B', FileStray(e);
      case ORef(a, e) => t, v := if a then 'A' else 'O', FileStray(e);
      case OSub(a, sub) => t, v := if a then 'A' else 'O', TrackerStray(sub.encFile.value);
      case OStray(x) => t, v := 'L', x;
    }

    /** New items, of which those that are trackers were there before. */
    method Replace(items': map<string, ItemObject>, ghost m: map<string, Item>)
      requires Valid() && m.Keys == items'.Keys && forall x :: x in items' ==> Shows(items'[x], m[x])
      requires forall x :: x in items' && items'[x].OSub? ==>
        x in items && items'[x] == items[x] && x in model.items && m[x] == model.items[x]
      modifies this`items, this`model
      ensures Valid() && model == old(model).(items := m)
    {
      hide Valid, Shows;
      PartsOfValid();
      items := items';
      model := model.(items := m);
      forall x | x in items && items[x].OSub?
        ensures Owns(x) && items[x].sub.Valid()
      {
        assert old(Owns(x));
      }
      BecomesValid();
    }

    /** The stray names that `serialize` finds once the item is the prototype of `items`. */
    method PutStrays(i: ItemObject, ghost m: Item)
      requires Valid() && Shows(i, m)
      requires i.OSub? ==> i.sub.Valid() && m.sub == i.sub.model && m.sub.encFile.Some?
      modifies this`items, this`model
      ensures Valid() && model == old(model).(items := Assigned(old(model).items, PROTO, m))
    {
      hide Valid, TagOf, StrayOf;
      PartsOfValid();
      if i.OSub? {
        i.sub.PartsOfValid();
      }
      var t, v := StraysIn(i, m);
      Replace(map["t" := OStray(Tag(t)), "v" := OStray(v)] + items, Assigned(model.items, PROTO, m));
    }

    /** The loading part of `_sub`: `!ok` when the child cannot be fetched or decrypted, and
        at a stray null. A key that is not there is left for `set` to create. */
    method Sub(s: Store, k: string) returns (ok: bool)
      requires Valid()
      modifies this`items, this`model, this`repr
      ensures Valid() && fresh(repr - old(repr)) && old(repr) <= repr
      ensures model == LoadedAt(s, old(model), k)
      ensures ok <==> CanLoad(s, old(model), k)
      ensures k in items <==> k in old(items)
      ensures ok && k in items ==> !items[k].ORef?
    {
      hide Valid;
      SameKeys();
      ok := true;
      if k in items {
        ShowsAt(k);
        if items[k] == OStray(NULL_STRAY) {
          return false;
        }
        if items[k].ORef? {
          var e, isArray := items[k].e, items[k].isArray;
          if !(RefersTo(s, e) && s.blobs[e.id].plain.PItems?) {
            return false;
          }
          var o := new TrackerObject.FromDownload(s, e);
          o.PartsOfValid();
          PutItem(k, OSub(isArray, o), ISub(isArray, o.model));
        }
      }
    }

    /** `set`. It follows `SetAt` on the tracker values, also in what it leaves in memory
        when it throws. */
    method Set(env: Env, s: Store, path: seq<string>, v: JsValue) returns (ok: bool, s': Store)
      requires Valid() && Uploaded(model)
      modifies repr
      ensures Valid() && fresh(repr - old(repr)) && old(repr) <= repr
      ensures var r := SetAt(env, s, old(model), path, v); ok == r.Done? && model == r.t && s' == r.s
      decreases v, |path| + 1, 0
    {
      hide SetAt, SetKey, LoadsTo, Upload, MakeItem, Valid, Uploaded, Serializable, Shows;
      SameKeys();
      ok, s' := false, s;
      if path == [] {
        SetNothing(env, s, model, v);
        return;
      }
      var k := path[0];
      if |path| == 1 {
        SetOneKey(env, s, model, path, v);
        ok, s' := SetHere(env, s, k, v);
        return;
      }
      SetAtSteps(env, s, model, path, v);
      var loaded := Sub(s, k);
      SameKeys();
      if k !in items {
        return;
      }
      ShowsAt(k);
      LoadedAtStep(s, old(model), k);
      if !loaded || !items[k].OSub? {
        return;
      }
      ghost var sub;
      ok, s', sub := SetBelow(env, s, k, path[1..], v);
      LoadedThenPut(s, old(model), k, ISub(old(model).items[k].isArray, sub));
      if ok {
        ok, s' := UploadSelf(env, s', None);
      }
    }

    /** `set` with one key. */
    method SetHere(env: Env, s: Store, k: string, v: JsValue) returns (ok: bool, s': Store)
      requires Valid() && Uploaded(model)
      modifies repr
      ensures Valid() && fresh(repr - old(repr)) && old(repr) <= repr
      ensures var r := SetKey(env, s, old(model), k, v); ok == r.Done? && model == r.t && s' == r.s
      decreases v, 1, 1
    {
      hide LoadsTo, Upload, MakeItem, Valid, Uploaded, LoadedAt, CanLoad, Assigned, Serializable;
      SameKeys();
      s' := s;
      ok := Sub(s, k);
      if !ok {
        CannotLoad(s, old(model), k);
        return;
      }
      SameKeys();
      var made, i, m, s1 := MakeItemObject(env, s, v);
      s' := s1;
      if !made {
        return false, s';
      }
      AssignedUploaded(model, k, m);
      PlainAssigned(model.items, k, m);
      if k == PROTO {
        PutStrays(i, m);
      } else {
        PutItem(k, i, m);
      }
      ok, s' := UploadSelf(env, s', None);
    }

    /** The recursive call of `set` on the child at `k`, which keeps its place here. */
    method SetBelow(env: Env, s: Store, k: string, rest: seq<string>, v: JsValue)
        returns (ok: bool, s': Store, ghost sub: Tracker)
      requires Valid() && Uploaded(model) && k in items && items[k].OSub?
      modifies repr
      ensures Valid() && fresh(repr - old(repr)) && old(repr) <= repr
      ensures k in old(model).items && old(model).items[k].ISub? && Uploaded(old(model).items[k].sub)
      ensures var r := SetAt(env, s, old(model).items[k].sub, rest, v); ok == r.Done? && sub == r.t && s' == r.s
      ensures model == old(model).(items := old(model).items[k := ISub(old(model).items[k].isArray, sub)])
      decreases v, |rest| + 1, 1
    {
      hide SetAt, Uploaded, LoadsTo, Valid;
      PartsOfValid();
      var child := items[k].sub;
      child.SameKeys();
      SubIsUploaded(model, k);
      forall x | x in items && items[x].OSub? && x != k
        ensures Owns(x) && items[x].sub.Valid() && items[x].sub.repr !! child.repr
        ensures items[x].sub in items[x].sub.repr
      {
        assert items[x].sub in repr;
        items[x].sub.SameKeys();
      }
      ok, s' := child.Set(env, s, rest, v);
      sub := child.model;
      forall x | x in items && items[x].OSub? && x != k
        ensures Owns(x) && items[x].sub.Valid() && items[x].sub.repr !! child.repr
      {
        assert items[x].sub.repr !! old(child.repr);
      }
      Adopt(k);
    }

    /** Brings the ghost state up to date after the child at `k` has changed. */
    ghost method Adopt(k: string)
      requires this in repr && Shape() && Apart() && k in items && items[k].OSub? && model.items[k].ISub?
      requires model.items[k].isArray == items[k].isArray && items[k].sub.Valid() && this !in items[k].sub.repr
      requires forall x :: x in items && items[x].OSub? && x != k ==>
        Owns(x) && items[x].sub.Valid() && items[x].sub.repr !! items[k].sub.repr
      modifies this`model, this`repr
      ensures Valid() && repr == old(repr) + items[k].sub.repr
      ensures model == old(model).(
        items := old(model).items[k := ISub(old(model).items[k].isArray, items[k].sub.model)])
    {
      hide Valid, Shows;
      items[k].sub.SameKeys();
      SubShows(items[k], ISub(model.items[k].isArray, items[k].sub.model));
      model := model.(items := model.items[k := ISub(model.items[k].isArray, items[k].sub.model)]);
      repr := repr + items[k].sub.repr;
      forall x | x in items && items[x].OSub?
        ensures Owns(x) && items[x].sub.Valid()
      {
        if x != k {
          assert old(Owns(x));
        }
      }
      BecomesValid();
    }

    /** The last step of `set`: what a value becomes; an object becomes a new tracker that
        is filled entry by entry and uploaded, unless one of these steps throws. */
    static method MakeItemObject(env: Env, s: Store, v: JsValue)
        returns (ok: bool, i: ItemObject, ghost m: Item, s': Store)
      ensures var r := MakeItem(env, s, v); s' == r.s && ok == r.item.Some? && (ok ==> m == r.item.value)
      ensures ok ==> Shows(i, m)
      ensures ok && i.OSub? ==> i.sub.Valid() && fresh(i.sub.repr) && m.sub == i.sub.model
      decreases v, 1, 0
    {
      ok, s' := true, s;
      match v
      case JLit(l) => i, m := OLit(l), ILit(l);
      case JText(x) =>
        var r := Encrypt(env, s, PText(x), None);
        i, m, s' := OText(r.0), IText(r.0), r.1;
      case JBytes(b) =>
        if b == [] {
          i, m := OLit(LEmptyBuffer), ILit(LEmptyBuffer);
        } else {
          var r := Encrypt(env, s, PBytes(b), None);
          i, m, s' := OBytes(r.0), IBytes(r.0), r.1;
        }
      case JObject(es) =>
        if es == [] {
          i, m := OLit(LEmptyObject), ILit(LEmptyObject);
        } else {
          ok, i, m, s' := BuildObject(env, s, v);
        }
      case JArray(vs) =>
        if vs == [] {
          i, m := OLit(LEmptyArray), ILit(LEmptyArray);
        } else {
          ok, i, m, s' := BuildObject(env, s, v);
        }
    }

    static method BuildObject(env: Env, s: Store, v: JsValue)
        returns (ok: bool, i: ItemObject, ghost m: Item, s': Store)
      requires EntryCount(v) > 0
      ensures var r := Nested(env, s, v, EntryCount(v)); s' == r.s && ok == r.item.Some? && (ok ==> m == r.item.value)
      ensures ok ==> Shows(i, m) && i.OSub? && i.sub.Valid() && fresh(i.sub.repr) && m.sub == i.sub.model
      decreases v, 0, 0
    {
      hide SetAt, SetKey, Upload;
      var o := new TrackerObject();
      ok, s', i, m := true, s, OLit(LUndefined), ILit(LUndefined);
      for n := 0 to EntryCount(v)
        invariant o.Valid() && fresh(o.repr)
        invariant Build(env, s, v, n) == Done(o.model, s')
      {
        var e := EntryAt(v, n);
        SetOneKey(env, s', o.model, [e.k], e.v);
        ok, s' := o.Set(env, s', [e.k], e.v);
        if !ok {
          BuildThrown(env, s, v, n + 1, EntryCount(v));
          return;
        }
      }
      ok, s' := o.UploadSelf(env, s', None);
      i, m := OSub(false, o), ISub(false, o.model);
    }

    /** `get`: the answer is that of the nested map this tracker stands for, and whatever is
        loaded on the way leaves that map as it is. */
    method Get(s: Store, path: seq<string>) returns (r: Found)
      requires Valid() && StoreOk(s) && Sound(s, model)
      modifies repr
      ensures Valid() && fresh(repr - old(repr)) && old(repr) <= repr
      ensures LoadsTo(s, old(model), model)
      ensures r == Lookup(View(s, old(model)), path)
      decreases VObject(View(s, model)), 1
    {
      hide StoreOk, Sound, View, LoadsTo, Valid;
      SameKeys();
      LoadsToReflexive(s, model);
      if path == [] {
        return Threw;
      }
      var k := path[0];
      ViewAt(s, model, k);
      if k !in items {
        return if k in INHERITED then Threw else Missing;
      }
      ShowsAt(k);
      SoundIsUploaded(s, model);
      var loaded := Sub(s, k);
      ShowsAt(k);
      LoadedAtStep(s, old(model), k);
      ChildView(s, old(model), k);
      if |path| > 1 {
        if !items[k].OSub? {
          return Threw;
        }
        r := AskBelow(s, k, path[1..], old(model));
      } else {
        match items[k]
        case OLit(l) => r := Got(VLit(l));
        case OText(e) => r := Got(VText(s.blobs[e.id].plain.s));
        case OBytes(e) => r := Got(VBytes(s.blobs[e.id].plain.b));
        case OSub(_, _) => r := AskBelow(s, k, [], old(model));
        case OStray(_) => r := Threw;
      }
    }

    /** Asks the child at `k`, which was found or just loaded: for the rest of the path, or
        for all of it when nothing is left of the path. */
    method AskBelow(s: Store, k: string, rest: seq<string>, ghost t0: Tracker) returns (r: Found)
      requires Valid() && StoreOk(s) && Sound(s, t0) && Uploaded(t0) && k in items && items[k].OSub?
      requires k in t0.items && model == LoadedAt(s, t0, k) && Child(s, t0.items[k]).Some?
      requires t0.items[k].IRef? || t0.items[k].ISub?
      modifies repr
      ensures Valid() && fresh(repr - old(repr)) && old(repr) <= repr
      ensures LoadsTo(s, t0, model)
      ensures Sound(s, Child(s, t0.items[k]).value)
      ensures var m := View(s, Child(s, t0.items[k]).value);
        r == if rest != [] then Lookup(m, rest) else if Readable(VObject(m)) then Got(VObject(m)) else Threw
      decreases VObject(View(s, t0)), 0
    {
      hide StoreOk, Sound, View, LoadsTo, Uploaded, ItemValue, Contents, Valid, Readable;
      PartsOfValid();
      var child := items[k].sub;
      child.SameKeys();
      ChildView(s, t0, k);
      ViewAt(s, t0, k);
      LoadedAtStep(s, t0, k);
      forall x | x in items && items[x].OSub? && x != k
        ensures Owns(x) && items[x].sub.Valid() && items[x].sub.repr !! child.repr
        ensures items[x].sub in items[x].sub.repr
      {
        assert items[x].sub in repr;
        items[x].sub.SameKeys();
      }
      r := child.Ask(s, rest);
      forall x | x in items && items[x].OSub? && x != k
        ensures Owns(x) && items[x].sub.Valid() && items[x].sub.repr !! child.repr
      {
        assert items[x].sub.repr !! old(child.repr);
      }
      LoadsThroughChild(s, t0, k, child.model);
      LoadedThenPut(s, t0, k, ISub(t0.items[k].isArray, child.model));
      Adopt(k);
    }

    /** `get` on a child, or `toLiteral` of it when nothing is left of the path. */
    method Ask(s: Store, rest: seq<string>) returns (r: Found)
      requires Valid() && StoreOk(s) && Sound(s, model)
      modifies repr
      ensures Valid() && fresh(repr - old(repr)) && old(repr) <= repr
      ensures LoadsTo(s, old(model), model)
      ensures var m := View(s, old(model));
        r == if rest != [] then Lookup(m, rest) else if Readable(VObject(m)) then Got(VObject(m)) else Threw
      decreases VObject(View(s, model)), 4
    {
      hide StoreOk, Sound, View, LoadsTo, Valid, Readable, Lookup;
      if rest == [] {
        var ok, m := ToObject(s);
        r := if ok then Got(VObject(m)) else Threw;
      } else {
        r := Get(s, rest);
      }
    }

    /** One item of `toObject`; `t0` is the tracker as it was before any of them was read. */
    method ReadOne(s: Store, k: string, ghost t0: Tracker) returns (r: Found)
      requires Valid() && StoreOk(s) && Sound(s, t0) && LoadsTo(s, t0, model)
      requires Sound(s, model) && View(s, model) == View(s, t0) && k in View(s, t0)
      modifies repr
      ensures Valid() && fresh(repr - old(repr)) && old(repr) <= repr
      ensures LoadsTo(s, t0, model) && Sound(s, model) && View(s, model) == View(s, t0)
      ensures r == if Readable(View(s, t0)[k]) then Got(View(s, t0)[k]) else Threw
      decreases VObject(View(s, model)), 2
    {
      hide StoreOk, Sound, View, LoadsTo, Valid, Serialized, Lookup, Readable;
      ghost var t1 := model;
      r := Get(s, [k]);
      LoadsToTransitive(s, t0, t1, model);
      LoadingKeepsView(s, t0, model);
      LookupOne(View(s, t0), k);
    }

    /** `toObject`: every item, read one by one, unless one of them throws; arrays come back
        as index-keyed objects. */
    method ToObject(s: Store) returns (ok: bool, m: map<string, Value>)
      requires Valid() && StoreOk(s) && Sound(s, model)
      modifies repr
      ensures Valid() && fresh(repr - old(repr)) && old(repr) <= repr
      ensures LoadsTo(s, old(model), model)
      ensures ok <==> Readable(VObject(View(s, old(model))))
      ensures ok ==> m == View(s, old(model))
      decreases VObject(View(s, model)), 3
    {
      hide StoreOk, Sound, View, LoadsTo, Valid, Lookup, Readable, Extends, Uploaded, Shows, Apart, Shape;
      ghost var t0, v0 := model, View(s, model);
      SameKeys();
      LoadsToReflexive(s, t0);
      ViewKeys(s, t0);
      ok, m := true, map[];
      var keys := items.Keys;
      var todo := keys;
      while todo != {}
        invariant todo <= keys && m.Keys == keys - todo
        invariant Valid() && fresh(repr - old(repr)) && old(repr) <= repr
        invariant LoadsTo(s, t0, model) && Sound(s, model) && View(s, model) == v0
        invariant forall k :: k in m ==> m[k] == v0[k] && Readable(m[k])
        decreases todo
      {
        var k :| k in todo;
        var r := ReadOne(s, k, t0);
        if !r.Got? {
          UnreadableItem(v0, k);
          return false, m;
        }
        m := m[k := r.v];
        todo := todo - {k};
      }
      assert m == v0;
      AllReadable(m);
    }
  }
}
