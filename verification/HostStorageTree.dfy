/** `set`, `get` and `upload` on tracker values, the nested-map operations they refine,
    and whole runs of the host storage of one node. */
module HostStorageTree {
  import opened Common
  import opened HostStorage

  // ------------------------------------------------------- the plain nested map

  datatype Found = Got(v: Value) | Missing | Threw

  /** `get` on the nested map: undefined for a missing key, but an error for one that every
      object inherits, when the path goes through something that is not a stored object,
      and when something in the answer cannot be read. */
  function Lookup(m: map<string, Value>, path: seq<string>): Found
    decreases |path|
  {
    if path == [] then Threw
    else if path[0] !in m then if path[0] in INHERITED then Threw else Missing
    else if |path| == 1 then if Readable(m[path[0]]) then Got(m[path[0]]) else Threw
    else if m[path[0]].VObject? then Lookup(m[path[0]].items, path[1..])
    else Threw
  }

  /** The key can be assigned: no stray null stands at it, and what stands at the other keys
      can be serialised. */
  predicate NothingInTheWay(m: map<string, Value>, k: string) {
    && (k in m ==> m[k] != VStray(NULL_STRAY))
    && (forall x :: x in m && x != k ==> !BreaksValue(m[x]))
  }

  /** `set` succeeds exactly when every proper prefix of the path is a stored object, what
      stands at the path is not a stray null, and all objects on the path can be serialised
      again. */
  predicate Settable(m: map<string, Value>, path: seq<string>)
    decreases |path|
  {
    && path != [] && NothingInTheWay(m, path[0])
    && (|path| > 1 ==> path[0] in m && m[path[0]].VObject? && Settable(m[path[0]].items, path[1..]))
  }

  /** A write that names no `__proto__`, neither last in its path nor in its value. */
  predicate PlainWrite(path: seq<string>, v: JsValue) {
    path != [] && path[|path| - 1] != PROTO && NoProto(v)
  }

  function Update(m: map<string, Value>, path: seq<string>, v: Value): map<string, Value>
    requires Settable(m, path)
    decreases |path|
  {
    if |path| == 1 then m[path[0] := v]
    else m[path[0] := VObject(Update(m[path[0]].items, path[1..], v))]
  }

  lemma {:induction false} LookupAfterUpdate(m: map<string, Value>, path: seq<string>, v: Value)
    requires Settable(m, path)
    ensures Lookup(Update(m, path, v), path) == if Readable(v) then Got(v) else Threw
    decreases |path|
  {
    if |path| <= 1 {
    } else {
      LookupAfterUpdate(m[path[0]].items, path[1..], v);
    }
  }

  /** `get` goes on below an object that it finds. */
  lemma {:induction false} LookupThrough(m: map<string, Value>, p: seq<string>, q: seq<string>)
    requires Lookup(m, p).Got? && Lookup(m, p).v.VObject? && q != []
    ensures Lookup(m, p + q) == Lookup(Lookup(m, p).v.items, q)
    decreases |p|
  {
    assert (p + q)[0] == p[0] && (p + q)[1..] == p[1..] + q;
    if |p| == 1 {
      assert p[1..] + q == q;
    } else {
      LookupThrough(m[p[0]].items, p[1..], q);
    }
  }

  /** A name that is not there reads as undefined, unless every object inherits it. */
  lemma AbsentName(m: map<string, Value>, k: string, q: seq<string>)
    requires k !in m
    ensures Lookup(m, [k] + q) in {Missing, Threw}
    ensures Lookup(m, [k] + q) == Threw <==>
      || k == "constructor" || k == "hasOwnProperty" || k == "isPrototypeOf" || k == "propertyIsEnumerable"
      || k == "toLocaleString" || k == "toString" || k == "valueOf" || k == "__proto__"
      || k == "__defineGetter__" || k == "__defineSetter__" || k == "__lookupGetter__" || k == "__lookupSetter__"
  {
  }

  /** Where everything can be read, a path can be written exactly if it is not empty and
      each proper prefix of it reads as a stored object. */
  lemma {:induction false} SettableIff(m: map<string, Value>, path: seq<string>)
    requires Readable(VObject(m))
    ensures Settable(m, path) <==>
      path != [] && forall i :: 0 < i < |path| ==> Lookup(m, path[..i]).Got? && Lookup(m, path[..i]).v.VObject?
    decreases |path|
  {
    if |path| <= 1 {
      assert path != [] ==> NothingInTheWay(m, path[0]);
    } else {
      var k := path[0];
      assert NothingInTheWay(m, k);
      assert path[..1] == [k];
      if k in m && m[k].VObject? {
        assert Readable(m[k]);
        SettableIff(m[k].items, path[1..]);
        forall i | 0 < i < |path| - 1 ensures Lookup(m, path[..i + 1]) == Lookup(m[k].items, path[1..][..i]) {
          assert path[..i + 1][1..] == path[1..][..i];
        }
        forall i | 1 < i < |path| ensures Lookup(m, path[..i]) == Lookup(m[k].items, path[1..][..i - 1]) {
          assert path[..i - 1 + 1] == path[..i];
        }
      } else {
        assert !(Lookup(m, path[..1]).Got? && Lookup(m, path[..1]).v.VObject?);
      }
    }
  }

  /** A write that is not plain asks for a map with the key `__proto__`. */
  lemma {:induction false} UpdateHasProto(m: map<string, Value>, path: seq<string>, v: JsValue)
    requires Settable(m, path) && Proper(v) && !PlainWrite(path, v)
    ensures HasProto(VObject(Update(m, path, Meaning(v))))
    decreases |path|
  {
    hide Meaning, Proper, NoProto;
    var m' := Update(m, path, Meaning(v));
    assert path[0] in m';
    if |path| > 1 {
      UpdateHasProto(m[path[0]].items, path[1..], v);
    } else if path[0] != PROTO {
      MeaningHasProto(v);
    }
  }

  /** Neither path is a prefix of the other. */
  predicate Disjoint(p: seq<string>, q: seq<string>) {
    !(p <= q) && !(q <= p)
  }

  lemma {:induction false} LookupElsewhere(m: map<string, Value>, path: seq<string>, v: Value, q: seq<string>)
    requires Settable(m, path) && Disjoint(path, q)
    ensures Lookup(Update(m, path, v), q) == Lookup(m, q)
    decreases |path|
  {
    if q[0] != path[0] {
    } else {
      assert path == [path[0]] + path[1..] && q == [q[0]] + q[1..];
      assert |path| > 1 && |q| > 1;
      assert path[1..] <= q[1..] ==> path <= q;
      assert q[1..] <= path[1..] ==> q <= path;
      LookupElsewhere(m[path[0]].items, path[1..], v, q[1..]);
    }
  }

  // ------------------------------------------------------------ the operations

  /** `t` is the tracker as it is left behind in memory, also by a `set` that throws. */
  datatype Outcome = Done(t: Tracker, s: Store) | Thrown(t: Tracker, s: Store)

  /** An item made from a value, unless that throws. */
  datatype Made = Made(item: Option<Item>, s: Store)

  /** Every loaded tracker below has a file, so `serialize` never has to upload a child. */
  predicate Uploaded(t: Tracker) {
    && KidsUploaded(t)
    && forall k :: k in t.items && t.items[k].ISub? ==> Uploaded(t.items[k].sub)
  }

  /** `serialize` does not throw. */
  predicate Serializable(t: Tracker) {
    forall k :: k in t.items ==> !(t.items[k].IStray? && Breaks(t.items[k].x))
  }

  /** `upload`: serialise, encrypt, store. */
  function Upload(env: Env, s: Store, t: Tracker, forced: Option<nat>): (r: (Tracker, Store))
    requires Uploaded(t) && Serializable(t)
    ensures Uploaded(r.0) && r.0.encFile.Some? && r.0.items == t.items
    ensures s.collided ==> r.1.collided
  {
    var (e, s') := Encrypt(env, s, PItems(Serialized(t)), forced);
    (t.(encFile := Some(e)), s')
  }

  /** The child tracker that `_sub` finds or loads at an item, if it is one. */
  function Child(s: Store, i: Item): Option<Tracker> {
    match i
    case ISub(_, sub) => Some(sub)
    case IRef(_, e) => if RefersTo(s, e) && s.blobs[e.id].plain.PItems? then Some(Downloaded(s, e)) else None
    case _ => None
  }

  /** `_sub` throws if it cannot load the child at the key, and at a stray null, of which it
      reads a property. */
  predicate CanLoad(s: Store, t: Tracker, k: string) {
    k in t.items ==> t.items[k] != IStray(NULL_STRAY) && (t.items[k].IRef? ==> Child(s, t.items[k]).Some?)
  }

  /** What `_sub` leaves: the child at the key, if there is one, has been loaded. */
  function LoadedAt(s: Store, t: Tracker, k: string): (r: Tracker)
    ensures r.encFile == t.encFile && (Uploaded(t) ==> Uploaded(r))
  {
    if k in t.items && t.items[k].IRef? && Child(s, t.items[k]).Some?
    then t.(items := t.items[k := ISub(t.items[k].isArray, Child(s, t.items[k]).value)])
    else t
  }

  function TagOf(i: Item): char {
    match i
    case ILit(_) => 'L'
    case IText(_) => 'S'
    case IBytes(_) => 'B'
    case IRef(a, _) => if a then 'A' else 'O'
    case ISub(a, _) => if a then 'A' else 'O'
    case IStray(_) => 'L'
  }

  function StrayOf(i: Item): Stray
    requires i.ISub? ==> i.sub.encFile.Some?
  {
    match i
    case ILit(l) => LiteralStray(l)
    case IText(e) => FileStray(e)
    case IBytes(e) => FileStray(e)
    case IRef(_, e) => FileStray(e)
    case ISub(_, sub) => TrackerStray(sub.encFile.value)
    case IStray(x) => x
  }

  /** `this.items[k] = {t, v}`. At `__proto__` this replaces the prototype of `items`, so
      that `serialize` from then on finds the stray names `t` and `v`, unless there are
      items of these names. */
  function Assigned(items: map<string, Item>, k: string, i: Item): map<string, Item>
    requires i.ISub? ==> i.sub.encFile.Some?
  {
    if k == PROTO then map["t" := IStray(Tag(TagOf(i))), "v" := IStray(StrayOf(i))] + items
    else items[k := i]
  }

  /** The end of every `set`: the upload, which throws if `serialize` does. */
  function Finish(env: Env, s: Store, t: Tracker): (r: Outcome)
    requires Uploaded(t)
    ensures Uploaded(r.t) && (t.encFile.Some? ==> r.t.encFile.Some?)
    ensures r.Done? ==> r.t.encFile.Some? && Serializable(r.t)
    ensures s.collided ==> r.s.collided
  {
    if Serializable(t) then var (t', s') := Upload(env, s, t, None); Done(t', s') else Thrown(t, s)
  }

  /** The last step of `set`: what a value becomes as an item. */
  function MakeItem(env: Env, s: Store, v: JsValue): (r: Made)
    ensures r.item.Some? && r.item.value.ISub? ==> r.item.value.sub.encFile.Some? && Uploaded(r.item.value.sub)
    ensures s.collided ==> r.s.collided
    decreases v, 1, 0
  {
    match v
    case JLit(l) => Made(Some(ILit(l)), s)
    case JText(x) => var (e, s') := Encrypt(env, s, PText(x), None); Made(Some(IText(e)), s')
    case JBytes(b) =>
      if b == [] then Made(Some(ILit(LEmptyBuffer)), s)
      else var (e, s') := Encrypt(env, s, PBytes(b), None); Made(Some(IBytes(e)), s')
    case JObject(es) => if es == [] then Made(Some(ILit(LEmptyObject)), s) else Nested(env, s, v, |es|)
    case JArray(vs) => if vs == [] then Made(Some(ILit(LEmptyArray)), s) else Nested(env, s, v, |vs|)
  }

  function Nested(env: Env, s: Store, v: JsValue, n: nat): (r: Made)
    requires 0 < n == EntryCount(v)
    ensures r.item.Some? ==>
      r.item.value.ISub? && r.item.value.sub.encFile.Some? && Uploaded(r.item.value.sub)
    ensures s.collided ==> r.s.collided
    decreases v, 0, n + 1
  {
    match Build(env, s, v, n)
    case Thrown(_, s1) => Made(None, s1)
    case Done(t, s1) => var (t', s2) := Upload(env, s1, t, None); Made(Some(ISub(false, t')), s2)
  }

  /** The loop that sets the entries of an object one by one on a new tracker. */
  function Build(env: Env, s: Store, v: JsValue, n: nat): (r: Outcome)
    requires n <= EntryCount(v)
    ensures Uploaded(r.t) && (r.Done? ==> Serializable(r.t))
    ensures s.collided ==> r.s.collided
    decreases v, 0, n
  {
    if n == 0 then Done(Tracker(map[], None), s)
    else
      var e := EntryAt(v, n - 1);
      match Build(env, s, v, n - 1)
      case Thrown(t, s1) => Thrown(t, s1)
      case Done(t, s1) => SetKey(env, s1, t, e.k, e.v)
  }

  /** `set` with a path of one key. */
  function SetKey(env: Env, s: Store, t: Tracker, k: string, v: JsValue): (r: Outcome)
    requires Uploaded(t)
    ensures Uploaded(r.t) && (t.encFile.Some? ==> r.t.encFile.Some?)
    ensures r.Done? ==> r.t.encFile.Some? && Serializable(r.t)
    ensures s.collided ==> r.s.collided
    decreases v, 2, 0
  {
    if !CanLoad(s, t, k) then Thrown(t, s)
    else
      var made, t1 := MakeItem(env, s, v), LoadedAt(s, t, k);
      if made.item.None? then Thrown(t1, made.s)
      else Finish(env, made.s, t1.(items := Assigned(t1.items, k, made.item.value)))
  }

  function SetAt(env: Env, s: Store, t: Tracker, path: seq<string>, v: JsValue): (r: Outcome)
    requires Uploaded(t)
    ensures Uploaded(r.t) && (t.encFile.Some? ==> r.t.encFile.Some?)
    ensures r.Done? ==> r.t.encFile.Some? && Serializable(r.t)
    ensures s.collided ==> r.s.collided
    decreases |path|
  {
    if path == [] then Thrown(t, s)
    else if |path| == 1 then SetKey(env, s, t, path[0], v)
    else if path[0] !in t.items then Thrown(t, s)
    else
      var child := Child(s, t.items[path[0]]);
      if child.None? then Thrown(t, s)
      else
        var r := SetAt(env, s, child.value, path[1..], v);
        var t1 := t.(items := t.items[path[0] := ISub(t.items[path[0]].isArray, r.t)]);
        if r.Done? then Finish(env, r.s, t1) else Thrown(t1, r.s)
  }

  /** The type tags in a tracker's JSON: S for a text, B for bytes, O for an object and also
      for an array, and L for a literal, an empty container among them. */
  lemma TagsOfItems(env: Env, s: Store, v: JsValue)
    requires MakeItem(env, s, v).item.Some?
    ensures TagOf(MakeItem(env, s, v).item.value) ==
      match v
      case JText(_) => 'S'
      case JBytes(b) => if b == [] then 'L' else 'B'
      case JObject(es) => if es == [] then 'L' else 'O'
      case JArray(vs) => if vs == [] then 'L' else 'O'
      case JLit(_) => 'L'
  {
    hide Build, Upload, Encrypt;
  }

  /** Neither writing nor reading a tracker's JSON, nor loading a child, changes a tag. */
  lemma TagsStay(s: Store, t: Tracker, k: string, i: Item)
    ensures (i.ISub? ==> i.sub.encFile.Some?) ==> TagOf(ItemOf(StoredOf(i))) == TagOf(i)
    ensures k in t.items ==> k in LoadedAt(s, t, k).items && TagOf(LoadedAt(s, t, k).items[k]) == TagOf(t.items[k])
  {
  }

  // ------------------------------------------------------------- what they keep

  lemma PutKeepsStore(env: Env, s: Store, c: Cipher)
    requires StoreOk(s)
    requires c.plain.PItems? ==>
      forall k :: k in c.plain.items ==> StoredOk(s, c.plain.items[k]) && Normal(c.plain.items[k]) && k != PROTO
    ensures var s' := Put(env, s, c);
      && StoreOk(s') && Extends(s, s')
      && (!s'.collided ==> env.hash(c) in s'.blobs && s'.blobs[env.hash(c)] == c)
  {
    var s', id := Put(env, s, c), env.hash(c);
    if id !in s.blobs {
      forall x, k | x in s'.blobs && s'.blobs[x].plain.PItems? && k in s'.blobs[x].plain.items
        ensures StoredOk(s', s'.blobs[x].plain.items[k]) && Older(s', s'.blobs[x].plain.items[k], x)
        ensures Normal(s'.blobs[x].plain.items[k]) && k != PROTO
      {
        if x != id {
          assert Older(s, s.blobs[x].plain.items[k], x);
        }
      }
    }
  }

  lemma EncryptKeepsStore(env: Env, s: Store, p: Plain, forced: Option<nat>)
    requires StoreOk(s)
    requires p.PItems? ==> forall k :: k in p.items ==> StoredOk(s, p.items[k]) && Normal(p.items[k]) && k != PROTO
    ensures var (e, s') := Encrypt(env, s, p, forced);
      && StoreOk(s') && Extends(s, s')
      && (!s'.collided ==> RefersTo(s', e) && s'.blobs[e.id].plain == p)
      && (forced.Some? ==> e.key == forced.value)
  {
    hide StoreOk, Put;
    var key := if forced.Some? then forced.value else env.random(s.drawn);
    var s1 := s.(drawn := s.drawn + 2);
    SameStore(s, s1);
    PutKeepsStore(env, s1, Cipher(key, env.random(s.drawn + 1), p));
  }

  lemma SameStore(s: Store, s1: Store)
    requires StoreOk(s) && s1.blobs == s.blobs && s1.order == s.order && s1.next == s.next
    ensures StoreOk(s1)
    ensures forall i :: StoredOk(s1, i) == StoredOk(s, i)
  {
  }

  lemma UploadKeepsView(env: Env, s: Store, t: Tracker, forced: Option<nat>)
    requires StoreOk(s) && Sound(s, t) && Uploaded(t) && Serializable(t)
    ensures var (t', s') := Upload(env, s, t, forced);
      && StoreOk(s') && Extends(s, s')
      && (!s'.collided ==>
            && Sound(s', t') && Synced(s', t') && View(s', t') == View(s, t)
            && (forced.Some? ==> t'.encFile.value.key == forced.value))
  {
    hide StoreOk, Encrypt;
    SerializedIsStorable(s, t);
    EncryptKeepsStore(env, s, PItems(Serialized(t)), forced);
    var (t', s') := Upload(env, s, t, forced);
    SoundStable(s, s', t);
    SameItems(s', t, t');
  }

  lemma SerializedIsStorable(s: Store, t: Tracker)
    requires Sound(s, t)
    ensures forall k :: k in Serialized(t) ==> StoredOk(s, Serialized(t)[k]) && Normal(Serialized(t)[k]) && k != PROTO
  {
  }

  lemma SameItems(s: Store, t: Tracker, t': Tracker)
    requires t'.items == t.items && StoreOk(s) && Sound(s, t)
    ensures Sound(s, t') && View(s, t') == View(s, t) && Serialized(t') == Serialized(t)
  {
  }

  /** Assigning a sound item to a sound tracker. */
  lemma AssignedItem(s: Store, t: Tracker, k: string, i: Item)
    requires StoreOk(s) && Sound(s, t) && ItemOk(s, i) && k != PROTO
    ensures var t' := t.(items := Assigned(t.items, k, i));
      Sound(s, t') && View(s, t') == View(s, t)[k := ItemValue(s, i)]
  {
    hide StoreOk, ItemValue;
  }

  lemma ProtoAssigned(s: Store, t: Tracker, i: Item)
    requires StoreOk(s) && Sound(s, t) && ItemOk(s, i)
    ensures Sound(s, t.(items := Assigned(t.items, PROTO, i)))
  {
    hide StoreOk, ItemOk;
    ItemHasFile(s, i);
    var items := Assigned(t.items, PROTO, i);
    forall k | k in items ensures k != PROTO && ItemOk(s, items[k]) {
      if k !in t.items {
        StrayIsOk(s, items[k].x);
      }
    }
  }

  lemma StrayIsOk(s: Store, x: Stray)
    ensures ItemOk(s, IStray(x))
  {
  }

  lemma ItemHasFile(s: Store, i: Item)
    requires ItemOk(s, i)
    ensures i.ISub? ==> i.sub.encFile.Some?
  {
  }

  lemma AssignedUploaded(t: Tracker, k: string, i: Item)
    requires Uploaded(t) && (i.ISub? ==> i.sub.encFile.Some? && Uploaded(i.sub))
    ensures Uploaded(t.(items := Assigned(t.items, k, i)))
  {
  }

  lemma SerializableView(s: Store, t: Tracker)
    requires StoreOk(s) && Sound(s, t)
    ensures Serializable(t) <==> forall k :: k in View(s, t) ==> !BreaksValue(View(s, t)[k])
  {
    hide StoreOk, Sound, View, Breaks;
    ViewKeys(s, t);
    forall k | k in t.items
      ensures t.items[k].IStray? <==> View(s, t)[k].VStray?
      ensures t.items[k].IStray? ==> View(s, t)[k].x == t.items[k].x
    {
      assert View(s, t)[k] == ItemValue(s, t.items[k]);
    }
  }

  /** Assigning an item and uploading: the end of every `set`. */
  lemma AssignAndFinish(env: Env, s: Store, s1: Store, t: Tracker, k: string, i: Item)
    requires StoreOk(s) && Sound(s, t) && StoreOk(s1) && Extends(s, s1) && ItemOk(s1, i)
    requires Uploaded(t) && (i.ISub? ==> i.sub.encFile.Some? && Uploaded(i.sub))
    ensures Uploaded(t.(items := Assigned(t.items, k, i)))
    ensures var r := Finish(env, s1, t.(items := Assigned(t.items, k, i)));
      && StoreOk(r.s) && Extends(s, r.s)
      && (r.Done? ==> forall x :: x in View(s, t) && x != k ==> !BreaksValue(View(s, t)[x]))
      && (k != PROTO && !i.IStray? ==>
            (r.Done? <==> forall x :: x in View(s, t) && x != k ==> !BreaksValue(View(s, t)[x])))
      && (r.Done? && !r.s.collided ==>
            && Sound(r.s, r.t) && Synced(r.s, r.t)
            && (k != PROTO ==> View(r.s, r.t) == View(s, t)[k := ItemValue(s1, i)]))
  {
    hide StoreOk, View, Sound, ItemOk, Upload, Synced, Serializable, Assigned;
    ItemHasFile(s1, i);
    var t1 := t.(items := Assigned(t.items, k, i));
    AssignedUploaded(t, k, i);
    SoundStable(s, s1, t);
    AssignedKeys(s1, t, k, i);
    SerializableView(s1, t1);
    if Serializable(t1) {
      forall x | x in View(s, t) && x != k ensures !BreaksValue(View(s, t)[x]) {
        assert View(s1, t1)[x] == View(s, t)[x];
      }
      UploadKeepsView(env, s1, t1, None);
      ExtendsTransitive(s, s1, Upload(env, s1, t1, None).1);
    }
  }

  /** What was an item before still is, except at the key. */
  lemma AssignedKeys(s: Store, t: Tracker, k: string, i: Item)
    requires StoreOk(s) && Sound(s, t) && ItemOk(s, i)
    ensures var t' := t.(items := Assigned(t.items, k, i));
      && Sound(s, t')
      && (forall x :: x in View(s, t) && x != k ==> x in View(s, t') && View(s, t')[x] == View(s, t)[x])
      && (k != PROTO ==> forall x :: x in View(s, t') && x != k ==> x in View(s, t))
      && (k != PROTO ==> k in View(s, t') && View(s, t')[k] == ItemValue(s, i))
  {
    hide StoreOk, ItemValue;
    if k == PROTO {
      ProtoAssigned(s, t, i);
    } else {
      AssignedItem(s, t, k, i);
    }
  }

  lemma ExtendsTransitive(a: Store, b: Store, c: Store)
    requires Extends(a, b) && Extends(b, c)
    ensures Extends(a, c)
  {
  }

  /** Whatever value is stored, the item is sound; and it stands for the value's meaning if
      the value names no `__proto__`. */
  lemma {:induction false} MakeItemMeans(env: Env, s: Store, v: JsValue)
    requires StoreOk(s) && !MakeItem(env, s, v).s.collided
    ensures var r := MakeItem(env, s, v);
      && StoreOk(r.s) && Extends(s, r.s)
      && (r.item.Some? ==> ItemOk(r.s, r.item.value) && !r.item.value.IStray?)
      && (NoProto(v) ==> r.item.Some? && ItemValue(r.s, r.item.value) == Meaning(v))
    decreases v, 1, 0
  {
    hide StoreOk, Encrypt, View, Sound, Nested, MeaningOf, NoProto;
    match v
    case JText(x) => EncryptKeepsStore(env, s, PText(x), None);
    case JBytes(b) => EncryptKeepsStore(env, s, PBytes(b), None);
    case JObject(es) => if es != [] { NestedMeans(env, s, v, |es|); }
    case JArray(vs) => if vs != [] { NestedMeans(env, s, v, |vs|); }
    case _ =>
  }

  lemma {:induction false} NestedMeans(env: Env, s: Store, v: JsValue, n: nat)
    requires StoreOk(s) && 0 < n == EntryCount(v) && !Nested(env, s, v, n).s.collided
    ensures var r := Nested(env, s, v, n);
      && StoreOk(r.s) && Extends(s, r.s)
      && (r.item.Some? ==> ItemOk(r.s, r.item.value) && !r.item.value.IStray?)
      && (NoProto(v) ==> r.item.Some? && ItemValue(r.s, r.item.value) == VObject(MeaningOf(v, n)))
    decreases v, 0, n + 1
  {
    hide StoreOk, Upload, View, Build, MeaningOf, Sound, Synced, Extends, NoProto;
    BuildMeans(env, s, v, n);
    var r := Build(env, s, v, n);
    if r.Done? {
      UploadKeepsView(env, r.s, r.t, None);
      ExtendsTransitive(s, r.s, Upload(env, r.s, r.t, None).1);
    }
  }

  lemma {:induction false} BuildMeans(env: Env, s: Store, v: JsValue, n: nat)
    requires StoreOk(s) && n <= EntryCount(v) && !Build(env, s, v, n).s.collided
    ensures var r := Build(env, s, v, n);
      && StoreOk(r.s) && Extends(s, r.s)
      && (r.Done? ==> Sound(r.s, r.t))
      && (NoProto(v) ==> r.Done? && View(r.s, r.t) == MeaningOf(v, n))
    decreases v, 0, n
  {
    hide StoreOk, Sound, SetKey, Extends, View, Meaning;
    if n == 0 {
      ExtendsReflexive(s);
      EmptyTracker(s);
    } else {
      BuildMeans(env, s, v, n - 1);
      var r := Build(env, s, v, n - 1);
      if r.Done? {
        var e := EntryAt(v, n - 1);
        SetKeyMeans(env, r.s, r.t, e.k, e.v);
        ExtendsTransitive(s, r.s, Build(env, s, v, n).s);
        if NoProto(v) {
          MeaningUnbroken(v, n - 1);
        }
      }
    }
  }

  lemma MeaningUnbroken(v: JsValue, n: nat)
    requires n <= EntryCount(v)
    ensures forall k :: k in MeaningOf(v, n) ==> !BreaksValue(MeaningOf(v, n)[k])
  {
    hide MeaningOf;
    EntriesAreReadable(v, n);
  }

  /** `set` with one key: what it leaves is sound, and it is the assignment of the value's
      meaning if no `__proto__` is named. */
  lemma {:induction false} SetKeyMeans(env: Env, s: Store, t: Tracker, k: string, v: JsValue)
    requires StoreOk(s) && Sound(s, t) && Uploaded(t) && !SetKey(env, s, t, k, v).s.collided
    ensures var r := SetKey(env, s, t, k, v);
      && StoreOk(r.s) && Extends(s, r.s)
      && (r.Done? ==> Sound(r.s, r.t) && Synced(r.s, r.t))
      && (r.Done? ==> NothingInTheWay(View(s, t), k))
      && (k != PROTO && NoProto(v) ==>
            && (r.Done? <==> NothingInTheWay(View(s, t), k))
            && (r.Done? ==> View(r.s, r.t) == View(s, t)[k := Meaning(v)]))
    decreases v, 2, 0
  {
    hide StoreOk, Sound, Synced, ItemOk, ItemValue, MakeItem, Meaning, Extends, View, Finish, NoProto, Assigned,
      CanLoad, LoadedAt;
    SoundLoads(s, t, k);
    ExtendsReflexive(s);
    if CanLoad(s, t, k) {
      MakeItemMeans(env, s, v);
      var made := MakeItem(env, s, v);
      if made.item.Some? {
        LoadedThenAssigned(s, t, k, made.item.value);
        AssignAndFinish(env, s, made.s, t, k, made.item.value);
      }
    }
  }

  lemma SoundLoads(s: Store, t: Tracker, k: string)
    requires StoreOk(s) && Sound(s, t)
    ensures CanLoad(s, t, k) <==> !(k in View(s, t) && View(s, t)[k] == VStray(NULL_STRAY))
    ensures PROTO !in t.items
  {
    hide StoreOk;
    assert k in t.items ==> ItemOk(s, t.items[k]);
  }

  lemma LoadedThenAssigned(s: Store, t: Tracker, k: string, i: Item)
    requires (i.ISub? ==> i.sub.encFile.Some?) && PROTO !in t.items
    ensures var t1 := LoadedAt(s, t, k); t1.(items := Assigned(t1.items, k, i)) == t.(items := Assigned(t.items, k, i))
  {
  }

  lemma ExtendsReflexive(s: Store)
    ensures Extends(s, s)
  {
  }

  lemma EmptyTracker(s: Store)
    requires StoreOk(s)
    ensures Sound(s, Tracker(map[], None)) && View(s, Tracker(map[], None)) == map[]
  {
  }

  lemma ChildView(s: Store, t: Tracker, k: string)
    requires StoreOk(s) && Sound(s, t) && k in t.items
    ensures Child(s, t.items[k]).Some? <==> ItemValue(s, t.items[k]).VObject?
    ensures Child(s, t.items[k]).Some? ==> t.items[k].IRef? || t.items[k].ISub?
    ensures Child(s, t.items[k]).Some? ==>
      var c := Child(s, t.items[k]).value;
      Sound(s, c) && Synced(s, c) && Uploaded(c) && ItemValue(s, t.items[k]) == VObject(View(s, c))
  {
    hide StoreOk, Contents, View;
    var i := t.items[k];
    match i
    case IRef(_, e) => DownloadedIsSound(s, e);
    case ISub(_, sub) => SoundIsUploaded(s, sub);
    case _ =>
  }

  lemma {:induction false} SoundIsUploaded(s: Store, t: Tracker)
    requires Sound(s, t)
    ensures Uploaded(t)
  {
    forall k | k in t.items && t.items[k].ISub? ensures Uploaded(t.items[k].sub) {
      assert ItemOk(s, t.items[k]);
      SoundIsUploaded(s, t.items[k].sub);
    }
  }

  /** The lazy tree refines the nested map: a plain write succeeds exactly when every proper
      prefix of the path is a stored object and can be serialised again, and then the tree
      stands for the updated map and has itself been uploaded, with everything it was
      changed through. What any write leaves is sound. */
  lemma {:induction false} SetRefinesUpdate(env: Env, s: Store, t: Tracker, path: seq<string>, v: JsValue)
    requires StoreOk(s) && Sound(s, t) && Uploaded(t) && !SetAt(env, s, t, path, v).s.collided
    ensures var r := SetAt(env, s, t, path, v);
      && StoreOk(r.s) && Extends(s, r.s)
      && (r.Done? ==> Settable(View(s, t), path) && Sound(r.s, r.t) && Synced(r.s, r.t))
      && (PlainWrite(path, v) && Settable(View(s, t), path) ==>
            r.Done? && View(r.s, r.t) == Update(View(s, t), path, Meaning(v)))
    decreases |path|
  {
    hide StoreOk, SetKey, Sound, Synced, ItemOk, ItemValue, Meaning, Extends, Child, Finish, NoProto, View;
    if path == [] {
      ExtendsReflexive(s);
    } else if |path| == 1 {
      SetKeyMeans(env, s, t, path[0], v);
    } else if path[0] !in t.items {
      ViewKeys(s, t);
      ExtendsReflexive(s);
    } else {
      ChildView(s, t, path[0]);
      ViewKeys(s, t);
      var child := Child(s, t.items[path[0]]);
      if child.None? {
        ExtendsReflexive(s);
      } else {
        SetRefinesUpdate(env, s, child.value, path[1..], v);
        var r := SetAt(env, s, child.value, path[1..], v);
        if r.Done? {
          var i := ISub(t.items[path[0]].isArray, r.t);
          SubItem(r.s, i);
          PathKeyIsPlain(s, t, path[0]);
          AssignAndFinish(env, s, r.s, t, path[0], i);
        }
      }
    }
  }

  lemma ViewKeys(s: Store, t: Tracker)
    requires StoreOk(s) && Sound(s, t)
    ensures View(s, t).Keys == t.items.Keys
    ensures forall k :: k in t.items ==> ItemOk(s, t.items[k]) && View(s, t)[k] == ItemValue(s, t.items[k])
  {
  }

  lemma PathKeyIsPlain(s: Store, t: Tracker, k: string)
    requires Sound(s, t) && k in t.items
    ensures k != PROTO
  {
  }

  /** Exactly which writes do what they should: those to stored objects that name no
      `__proto__`. Every other one throws, or leaves a tree that stands for another map. */
  lemma SetRefinesUpdateIff(env: Env, s: Store, t: Tracker, path: seq<string>, v: JsValue)
    requires StoreOk(s) && Sound(s, t) && Uploaded(t) && Proper(v) && !SetAt(env, s, t, path, v).s.collided
    ensures var r := SetAt(env, s, t, path, v);
      && (r.Done? ==> StoreOk(r.s) && Sound(r.s, r.t))
      && (r.Done? && Settable(View(s, t), path) && View(r.s, r.t) == Update(View(s, t), path, Meaning(v))
          <==> Settable(View(s, t), path) && PlainWrite(path, v))
  {
    hide StoreOk, SetAt, Sound, Synced, Meaning, View, Update, Settable, HasProto, PlainWrite;
    SetRefinesUpdate(env, s, t, path, v);
    var r := SetAt(env, s, t, path, v);
    if r.Done? && !PlainWrite(path, v) {
      UpdateHasProto(View(s, t), path, v);
      ViewHasNoProto(r.s, r.t);
    }
  }

  lemma SubItem(s: Store, i: Item)
    requires StoreOk(s) && i.ISub? && i.sub.encFile.Some? && Sound(s, i.sub) && Synced(s, i.sub)
    ensures ItemOk(s, i) && ItemValue(s, i) == VObject(View(s, i.sub))
  {
  }
}
