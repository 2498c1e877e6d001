/** Reloading the host storage from its root file, and whole runs of `hostStorageModify`
    (SET) and `hostStorageGet`: the node behaves like one plain nested map. */
module HostStorageRuns {
  import opened Common
  import opened HostStorage
  import opened HostStorageTree

  // -------------------------------------------------------------------- reloading

  /** What a trip through JSON text makes of a value. */
  function JsonValue(v: Value): Value {
    match v
    case VLit(l) => VLit(JsonRound(l))
    case VObject(m) => VObject(map k | k in m :: JsonValue(m[k]))
    case VStray(x) => VStray(JsonStray(x))
    case _ => v
  }

  function JsonMap(m: map<string, Value>): map<string, Value> {
    map k | k in m :: JsonValue(m[k])
  }

  /** JSON text can hold the value: no empty Buffer, no NaN or infinity and no -0 in it. */
  predicate Faithful(v: Value) {
    match v
    case VLit(l) => l !in {LNotFinite, LMinusZero, LEmptyBuffer}
    case VObject(m) => forall k :: k in m ==> Faithful(m[k])
    case VStray(x) => JsonStray(x) == x
    case _ => true
  }

  lemma AsJson(m: map<string, Value>)
    ensures JsonValue(VObject(m)) == VObject(JsonMap(m))
  {
  }

  lemma JsonMapFixed(m: map<string, Value>)
    ensures JsonMap(m) == m <==> forall k :: k in m ==> JsonValue(m[k]) == m[k]
  {
    hide JsonValue;
    if JsonMap(m) == m {
      forall k | k in m ensures JsonValue(m[k]) == m[k] {
        assert JsonMap(m)[k] == m[k];
      }
    }
  }

  lemma {:induction false} JsonKeepsFaithful(v: Value)
    ensures JsonValue(v) == v <==> Faithful(v)
    ensures JsonValue(JsonValue(v)) == JsonValue(v)
  {
    match v
    case VObject(m) =>
      hide JsonValue;
      forall k | k in m
        ensures JsonValue(m[k]) == m[k] <==> Faithful(m[k])
        ensures JsonValue(JsonValue(m[k])) == JsonValue(m[k])
      {
        JsonKeepsFaithful(m[k]);
      }
      JsonMapFixed(m);
      AsJson(m);
      AsJson(JsonMap(m));
    case _ =>
  }

  /** What is in the store went through JSON text already. */
  lemma {:induction false} ContentsAreJson(s: Store, id: string)
    requires StoreOk(s) && id in s.blobs && s.blobs[id].plain.PItems?
    ensures JsonMap(Contents(s, id)) == Contents(s, id)
    decreases s.order[id]
  {
    var items := s.blobs[id].plain.items;
    forall k | k in items
      ensures JsonValue(Contents(s, id)[k]) == Contents(s, id)[k]
    {
      assert Normal(items[k]);
      if items[k].SObject? {
        assert Older(s, items[k], id);
        ContentsAreJson(s, items[k].e.id);
      }
    }
  }

  lemma {:induction false} FileHoldsJsonOfView(s: Store, t: Tracker)
    requires StoreOk(s) && Sound(s, t) && Synced(s, t) && t.encFile.Some?
    ensures Contents(s, t.encFile.value.id) == JsonMap(View(s, t))
    decreases t
  {
    hide StoreOk, Contents, View, JsonValue, ItemOk, ItemValue;
    var id := t.encFile.value.id;
    ContentsKeys(s, id);
    ViewKeys(s, t);
    forall k | k in t.items ensures Contents(s, id)[k] == JsonValue(View(s, t)[k]) {
      StoredIsJson(s, id, t.items[k], k);
    }
  }

  lemma {:induction false} StoredIsJson(s: Store, id: string, i: Item, k: string)
    requires StoreOk(s) && ItemOk(s, i) && id in s.blobs && s.blobs[id].plain.PItems?
    requires (i.ISub? ==> i.sub.encFile.Some?) && k in s.blobs[id].plain.items
    requires s.blobs[id].plain.items[k] == StoredOf(i)
    ensures k in Contents(s, id) && Contents(s, id)[k] == JsonValue(ItemValue(s, i))
    decreases i
  {
    hide StoreOk, View, Sound;
    ContentsKeys(s, id);
    match i
    case IRef(_, e) => ContentsAreJson(s, e.id);
    case ISub(_, sub) => FileHoldsJsonOfView(s, sub);
    case _ =>
  }

  /** Reload equivalence: after a successful `set`, downloading the tracker's file gives a
      sound tracker that stands for what `serialize` found, as JSON text holds it. After a
      write that names no `__proto__` that is the map which the written tracker stands for,
      if and only if it holds no empty Buffer and no number that JSON lacks. */
  lemma ReloadEquivalence(env: Env, s: Store, t: Tracker, path: seq<string>, v: JsValue)
    requires StoreOk(s) && Sound(s, t) && Uploaded(t)
    requires var r := SetAt(env, s, t, path, v); r.Done? && !r.s.collided
    ensures var r := SetAt(env, s, t, path, v);
      && StoreOk(r.s) && Sound(r.s, r.t) && RefersTo(r.s, r.t.encFile.value)
      && r.s.blobs[r.t.encFile.value.id].plain.PItems? && Settable(View(s, t), path)
      && var again := Downloaded(r.s, r.t.encFile.value);
      && Sound(r.s, again)
      && View(r.s, again) == JsonMap(View(r.s, r.t))
      && (PlainWrite(path, v) ==>
            && View(r.s, r.t) == Update(View(s, t), path, Meaning(v))
            && (View(r.s, again) == View(r.s, r.t) <==> Faithful(VObject(View(r.s, r.t)))))
  {
    hide StoreOk, SetAt, View, Contents, Sound, Downloaded, Update, Settable, PlainWrite, Meaning;
    SetRefinesUpdate(env, s, t, path, v);
    var r := SetAt(env, s, t, path, v);
    SyncedRefers(r.s, r.t);
    DownloadedIsSound(r.s, r.t.encFile.value);
    FileHoldsJsonOfView(r.s, r.t);
    JsonKeepsFaithful(VObject(View(r.s, r.t)));
  }

  lemma SyncedRefers(s: Store, t: Tracker)
    requires Sound(s, t) && Synced(s, t) && t.encFile.Some?
    ensures RefersTo(s, t.encFile.value) && s.blobs[t.encFile.value.id].plain.PItems?
  {
  }

  lemma {:induction false} JsonKeepsProto(v: Value)
    ensures HasProto(JsonValue(v)) <==> HasProto(v)
  {
    match v
    case VObject(m) =>
      forall k | k in m ensures HasProto(JsonValue(m[k])) <==> HasProto(m[k]) {
        JsonKeepsProto(m[k]);
      }
      assert JsonMap(m).Keys == m.Keys;
    case _ =>
  }

  /** Exactly which writes to stored objects survive a reload as what they should be: those
      that name no `__proto__`, on maps that JSON text can hold. */
  lemma SetSurvivesReloadIff(env: Env, s: Store, t: Tracker, path: seq<string>, v: JsValue)
    requires StoreOk(s) && Sound(s, t) && Uploaded(t) && Proper(v) && Settable(View(s, t), path)
    requires !SetAt(env, s, t, path, v).s.collided
    ensures var r := SetAt(env, s, t, path, v);
      var m := Update(View(s, t), path, Meaning(v));
      && (r.Done? ==>
            && StoreOk(r.s) && RefersTo(r.s, r.t.encFile.value) && r.s.blobs[r.t.encFile.value.id].plain.PItems?
            && Sound(r.s, Downloaded(r.s, r.t.encFile.value)))
      && (r.Done? && View(r.s, Downloaded(r.s, r.t.encFile.value)) == m
          <==> PlainWrite(path, v) && Faithful(VObject(m)))
  {
    hide StoreOk, SetAt, View, Contents, Sound, Synced, Downloaded, Update, Settable, PlainWrite, HasProto, Meaning,
      Faithful;
    SetRefinesUpdate(env, s, t, path, v);
    var r := SetAt(env, s, t, path, v);
    var m := Update(View(s, t), path, Meaning(v));
    if r.Done? {
      ReloadEquivalence(env, s, t, path, v);
      if PlainWrite(path, v) {
        JsonKeepsFaithful(VObject(m));
      } else {
        UpdateHasProto(View(s, t), path, v);
        ViewHasNoProto(r.s, Downloaded(r.s, r.t.encFile.value));
      }
    }
  }

  // --------------------------------------------------------- what does not survive

  /** What is read at a path from the file that a `set` on an empty tracker left. */
  ghost function ReadBack(r: Outcome, path: seq<string>): Found
    requires r.Done? && StoreOk(r.s) && r.t.encFile.Some? && RefersTo(r.s, r.t.encFile.value)
    requires r.s.blobs[r.t.encFile.value.id].plain.PItems?
  {
    Lookup(Contents(r.s, r.t.encFile.value.id), path)
  }

  /** One literal, set on an empty tracker. */
  lemma LiteralIsStored(env: Env, k: string, l: Literal)
    requires k != PROTO
    ensures var r := SetAt(env, EMPTY_STORE, Tracker(map[], None), [k], JLit(l));
      && r.Done? && !r.s.collided && RefersTo(r.s, r.t.encFile.value)
      && r.t.items == map[k := ILit(l)]
      && r.s.blobs[r.t.encFile.value.id].plain == PItems(map[k := SLit(JsonRound(l))])
  {
    hide Encrypt;
    var t := Tracker(map[k := ILit(l)], None);
    var t0 := Tracker(map[], None);
    assert t0.(items := Assigned(t0.items, k, ILit(l))) == t;
    assert SetAt(env, EMPTY_STORE, t0, [k], JLit(l)) == SetKey(env, EMPTY_STORE, t0, k, JLit(l));
    assert SetKey(env, EMPTY_STORE, t0, k, JLit(l)) == Finish(env, EMPTY_STORE, t);
    assert Serialized(t) == map[k := SLit(JsonRound(l))];
    FirstFile(env, PItems(Serialized(t)));
  }

  lemma FirstFile(env: Env, p: Plain)
    ensures var (e, s) := Encrypt(env, EMPTY_STORE, p, None);
      !s.collided && RefersTo(s, e) && s.blobs[e.id].plain == p
  {
  }

  /** What each literal reads back as after a reload. */
  lemma LiteralReadsBack(env: Env, k: string, l: Literal)
    requires k != PROTO
    ensures var r := SetAt(env, EMPTY_STORE, Tracker(map[], None), [k], JLit(l));
      && r.Done? && !r.s.collided && StoreOk(r.s)
      && RefersTo(r.s, r.t.encFile.value) && r.s.blobs[r.t.encFile.value.id].plain.PItems?
      && ReadBack(r, [k]) == Got(VLit(
           match l
           case LNotFinite => LNull
           case LMinusZero => LNumber(0.0)
           case LEmptyBuffer => LBufferJson
           case _ => l))
  {
    hide SetAt, StoreOk, Sound;
    EmptyStoreIsOk();
    EmptyTracker(EMPTY_STORE);
    LiteralIsStored(env, k, l);
    SetRefinesUpdate(env, EMPTY_STORE, Tracker(map[], None), [k], JLit(l));
  }

  /** An empty Buffer is stored as a literal, and reads back as `{type: 'Buffer', data: []}`. */
  lemma EmptyBufferDoesNotSurvive(env: Env, k: string)
    requires k != PROTO
    ensures var r := SetAt(env, EMPTY_STORE, Tracker(map[], None), [k], JBytes([]));
      && r.Done? && StoreOk(r.s) && Sound(r.s, r.t) && !r.s.collided
      && Lookup(View(r.s, r.t), [k]) == Got(VLit(LEmptyBuffer))
      && RefersTo(r.s, r.t.encFile.value) && r.s.blobs[r.t.encFile.value.id].plain.PItems?
      && ReadBack(r, [k]) == Got(VLit(LBufferJson))
  {
    hide SetAt, StoreOk, Sound;
    EmptyStoreIsOk();
    EmptyTracker(EMPTY_STORE);
    var t := Tracker(map[], None);
    assert SetAt(env, EMPTY_STORE, t, [k], JBytes([])) == SetAt(env, EMPTY_STORE, t, [k], JLit(LEmptyBuffer)) by {
      SameItem(env, t, k);
    }
    LiteralIsStored(env, k, LEmptyBuffer);
    SetRefinesUpdate(env, EMPTY_STORE, t, [k], JLit(LEmptyBuffer));
  }

  lemma EmptyStoreIsOk()
    ensures StoreOk(EMPTY_STORE)
  {
  }

  lemma SameItem(env: Env, t: Tracker, k: string)
    requires Uploaded(t)
    ensures SetAt(env, EMPTY_STORE, t, [k], JBytes([])) == SetAt(env, EMPTY_STORE, t, [k], JLit(LEmptyBuffer))
  {
  }

  // ------------------------------------------------------------------- whole runs

  /** The store and the root file id that the node keeps on disk. */
  datatype Node = Node(store: Store, local: Option<string>)

  datatype Modify = Modify(path: seq<string>, v: JsValue)

  predicate RootReadable(s: Store, rootKey: nat, id: string) {
    RefersTo(s, EncFile(rootKey, id)) && s.blobs[id].plain.PItems?
  }

  /** `_getRoot`: read afresh for every call; an unreadable root counts as an empty one. */
  function Root(n: Node, rootKey: nat): Tracker {
    if n.local.Some? && RootReadable(n.store, rootKey, n.local.value)
    then Downloaded(n.store, EncFile(rootKey, n.local.value))
    else Tracker(map[], None)
  }

  datatype Answer = Answer(ok: bool, node: Node)

  /** `hostStorageModify` with SET. If it throws, the root stays what it was, whatever had
      been uploaded by then. */
  function HostSet(env: Env, n: Node, rootKey: nat, m: Modify): Answer {
    assert Uploaded(Root(n, rootKey));
    if m.v == JLit(LUndefined) then Answer(false, n)
    else
      match SetAt(env, n.store, Root(n, rootKey), m.path, m.v)
      case Thrown(_, s) => Answer(false, n.(store := s))
      case Done(t, s) =>
        var (t', s') := Upload(env, s, t, Some(rootKey));
        Answer(true, Node(s', Some(t'.encFile.value.id)))
  }

  function AfterSet(env: Env, n: Node, rootKey: nat, m: Modify): Node {
    HostSet(env, n, rootKey, m).node
  }

  function AfterSets(env: Env, n: Node, rootKey: nat, ms: seq<Modify>): Node {
    if ms == [] then n
    else AfterSet(env, AfterSets(env, n, rootKey, ms[..|ms| - 1]), rootKey, ms[|ms| - 1])
  }

  /** The plain nested map under the same calls. */
  function PlainSet(m: map<string, Value>, c: Modify): map<string, Value> {
    if c.v != JLit(LUndefined) && Settable(m, c.path) then JsonMap(Update(m, c.path, Meaning(c.v))) else m
  }

  function PlainSets(ms: seq<Modify>): map<string, Value> {
    if ms == [] then map[] else PlainSet(PlainSets(ms[..|ms| - 1]), ms[|ms| - 1])
  }

  /** The node's root file stands for `m`. */
  ghost predicate StandsFor(n: Node, rootKey: nat, m: map<string, Value>) {
    && StoreOk(n.store)
    && if n.local.None? then m == map[]
       else RootReadable(n.store, rootKey, n.local.value) && Contents(n.store, n.local.value) == m
  }

  /** The node's root file, if there is one, can be read. */
  ghost predicate RootOk(n: Node, rootKey: nat) {
    StoreOk(n.store) && (n.local.Some? ==> RootReadable(n.store, rootKey, n.local.value))
  }

  lemma RootIsSound(n: Node, rootKey: nat)
    requires RootOk(n, rootKey)
    ensures StoreOk(n.store) && Sound(n.store, Root(n, rootKey))
  {
    hide StoreOk, Contents;
    if n.local.None? {
      EmptyTracker(n.store);
    } else {
      DownloadedIsSound(n.store, EncFile(rootKey, n.local.value));
    }
  }

  lemma RootStandsFor(n: Node, rootKey: nat, m: map<string, Value>)
    requires StandsFor(n, rootKey, m)
    ensures var t := Root(n, rootKey);
      Sound(n.store, t) && Uploaded(t) && View(n.store, t) == m
  {
    hide StoreOk, Contents;
    if n.local.None? {
      EmptyTracker(n.store);
    } else {
      DownloadedIsSound(n.store, EncFile(rootKey, n.local.value));
    }
  }

  lemma StandsForHasRoot(n: Node, rootKey: nat, m: map<string, Value>)
    requires StandsFor(n, rootKey, m)
    ensures RootOk(n, rootKey)
  {
  }

  lemma StandsForJson(n: Node, rootKey: nat, m: map<string, Value>)
    requires StandsFor(n, rootKey, m)
    ensures JsonMap(m) == m
  {
    hide StoreOk, Contents;
    if n.local.None? {
    } else {
      ContentsAreJson(n.store, n.local.value);
    }
  }

  /** The call asks for nothing that the source cannot do: it fails on both sides, or names
      no `__proto__`. */
  predicate Harmless(m: map<string, Value>, c: Modify) {
    c.v == JLit(LUndefined) || !Settable(m, c.path) || PlainWrite(c.path, c.v)
  }

  lemma SetStandsFor(env: Env, n: Node, rootKey: nat, m: map<string, Value>, c: Modify)
    requires StandsFor(n, rootKey, m) && !AfterSet(env, n, rootKey, c).store.collided
    ensures RootOk(AfterSet(env, n, rootKey, c), rootKey)
    ensures Harmless(m, c) ==> StandsFor(AfterSet(env, n, rootKey, c), rootKey, PlainSet(m, c))
    ensures HostSet(env, n, rootKey, c).ok ==> c.v != JLit(LUndefined) && Settable(m, c.path)
    ensures PlainWrite(c.path, c.v) ==>
      (HostSet(env, n, rootKey, c).ok <==> c.v != JLit(LUndefined) && Settable(m, c.path))
  {
    hide StoreOk, SetAt, View, Contents, Sound, Update, Upload, Meaning, Settable, NoProto;
    RootStandsFor(n, rootKey, m);
    var t := Root(n, rootKey);
    if c.v != JLit(LUndefined) {
      var r := SetAt(env, n.store, t, c.path, c.v);
      CollisionsStick(env, n, rootKey, c);
      SetRefinesUpdate(env, n.store, t, c.path, c.v);
      if r.Done? {
        UploadKeepsView(env, r.s, r.t, Some(rootKey));
        var (t', s') := Upload(env, r.s, r.t, Some(rootKey));
        SyncedRefers(s', t');
        FileHoldsJsonOfView(s', t');
      } else {
        SameRoot(n, r.s, rootKey, m);
      }
    }
  }

  /** More files leave the root what it was. */
  lemma SameRoot(n: Node, s: Store, rootKey: nat, m: map<string, Value>)
    requires StandsFor(n, rootKey, m) && StoreOk(s) && Extends(n.store, s)
    ensures StandsFor(n.(store := s), rootKey, m)
  {
    hide StoreOk, Contents;
    if n.local.Some? {
      ContentsStable(n.store, s, n.local.value);
    }
  }

  /** What a node stands for never has the key `__proto__`. */
  lemma StandsForNoProto(n: Node, rootKey: nat, m: map<string, Value>)
    requires StandsFor(n, rootKey, m)
    ensures !HasProto(VObject(m))
  {
    hide StoreOk, Contents, HasProto;
    RootStandsFor(n, rootKey, m);
    ViewHasNoProto(n.store, Root(n, rootKey));
  }

  /** One call: the node stands for the plain map under the same call if and only if the
      call is harmless. */
  lemma SetStandsForIff(env: Env, n: Node, rootKey: nat, m: map<string, Value>, c: Modify)
    requires StandsFor(n, rootKey, m) && Proper(c.v) && !AfterSet(env, n, rootKey, c).store.collided
    ensures StandsFor(AfterSet(env, n, rootKey, c), rootKey, PlainSet(m, c)) <==> Harmless(m, c)
  {
    hide AfterSet, StandsFor, Update, Settable, PlainWrite, Meaning, HasProto, JsonValue;
    SetStandsFor(env, n, rootKey, m, c);
    if !Harmless(m, c) {
      UpdateHasProto(m, c.path, c.v);
      JsonKeepsProto(VObject(Update(m, c.path, Meaning(c.v))));
      AsJson(Update(m, c.path, Meaning(c.v)));
      if StandsFor(AfterSet(env, n, rootKey, c), rootKey, PlainSet(m, c)) {
        StandsForNoProto(AfterSet(env, n, rootKey, c), rootKey, PlainSet(m, c));
      }
    }
  }

  /** After the first `i` calls the node stands for the plain nested map. */
  ghost predicate StandsAfter(env: Env, rootKey: nat, ms: seq<Modify>, i: nat)
    requires i <= |ms|
  {
    StandsFor(AfterSets(env, Node(EMPTY_STORE, None), rootKey, ms[..i]), rootKey, PlainSets(ms[..i]))
  }

  ghost predicate AlwaysStands(env: Env, rootKey: nat, ms: seq<Modify>) {
    forall i :: 0 <= i <= |ms| ==> StandsAfter(env, rootKey, ms, i)
  }

  ghost predicate HarmlessAt(ms: seq<Modify>, i: nat)
    requires i < |ms|
  {
    Harmless(PlainSets(ms[..i]), ms[i])
  }

  ghost predicate AllHarmless(ms: seq<Modify>) {
    forall i :: 0 <= i < |ms| ==> HarmlessAt(ms, i)
  }

  /** Over every sequence of SET calls, failing ones included, and unless two files collide:
      the root file stands for the plain nested map under the same calls, all the way, if
      and only if no call that succeeds on the map names `__proto__`. */
  lemma {:induction false} RunsRefineNestedMap(env: Env, rootKey: nat, ms: seq<Modify>)
    requires !AfterSets(env, Node(EMPTY_STORE, None), rootKey, ms).store.collided
    requires forall i :: 0 <= i < |ms| ==> Proper(ms[i].v)
    ensures AlwaysStands(env, rootKey, ms) <==> AllHarmless(ms)
  {
    hide StandsFor, Harmless, AfterSet, PlainSet, Proper, StandsAfter, HarmlessAt, AlwaysStands, AllHarmless;
    if ms == [] {
      EmptyRunStands(env, rootKey);
    } else {
      var k := |ms| - 1;
      var n := AfterSets(env, Node(EMPTY_STORE, None), rootKey, ms[..k]);
      CollisionsStick(env, n, rootKey, ms[k]);
      RunsRefineNestedMap(env, rootKey, ms[..k]);
      OneMoreStands(env, rootKey, ms);
      OneMoreHarmless(ms);
      if AlwaysStands(env, rootKey, ms[..k]) {
        StandsAtEnd(env, rootKey, ms[..k]);
        SetStandsForIff(env, n, rootKey, PlainSets(ms[..k]), ms[k]);
      }
    }
  }

  lemma EmptyRunStands(env: Env, rootKey: nat)
    ensures AlwaysStands(env, rootKey, []) && AllHarmless([])
  {
    assert StandsAfter(env, rootKey, [], 0);
  }

  lemma StandsAtEnd(env: Env, rootKey: nat, ms: seq<Modify>)
    requires AlwaysStands(env, rootKey, ms)
    ensures StandsFor(AfterSets(env, Node(EMPTY_STORE, None), rootKey, ms), rootKey, PlainSets(ms))
  {
    hide StandsFor, AfterSets, PlainSets;
    assert StandsAfter(env, rootKey, ms, |ms|);
    assert ms[..|ms|] == ms;
  }

  lemma OneMoreStands(env: Env, rootKey: nat, ms: seq<Modify>)
    requires ms != []
    ensures AlwaysStands(env, rootKey, ms) <==>
      && AlwaysStands(env, rootKey, ms[..|ms| - 1])
      && StandsFor(AfterSets(env, Node(EMPTY_STORE, None), rootKey, ms), rootKey, PlainSets(ms))
  {
    hide StandsFor, AfterSets, PlainSets;
    var front := ms[..|ms| - 1];
    assert ms[..|ms|] == ms;
    forall i | 0 <= i < |ms| ensures StandsAfter(env, rootKey, ms, i) <==> StandsAfter(env, rootKey, front, i) {
      assert ms[..i] == front[..i];
    }
    if AlwaysStands(env, rootKey, ms) {
      assert StandsAfter(env, rootKey, ms, |ms|);
      forall i | 0 <= i <= |front| ensures StandsAfter(env, rootKey, front, i) {
        assert StandsAfter(env, rootKey, ms, i);
      }
    } else {
      var i :| 0 <= i <= |ms| && !StandsAfter(env, rootKey, ms, i);
      assert i < |ms| ==> !StandsAfter(env, rootKey, front, i);
    }
  }

  lemma OneMoreHarmless(ms: seq<Modify>)
    requires ms != []
    ensures AllHarmless(ms) <==>
      AllHarmless(ms[..|ms| - 1]) && Harmless(PlainSets(ms[..|ms| - 1]), ms[|ms| - 1])
  {
    hide Harmless, PlainSets;
    var front := ms[..|ms| - 1];
    forall i | 0 <= i < |front| ensures HarmlessAt(ms, i) <==> HarmlessAt(front, i) {
      assert ms[..i] == front[..i];
    }
    if AllHarmless(ms) {
      assert HarmlessAt(ms, |front|);
      forall i | 0 <= i < |front| ensures HarmlessAt(front, i) {
        assert HarmlessAt(ms, i);
      }
    } else {
      var i :| 0 <= i < |ms| && !HarmlessAt(ms, i);
      assert i < |front| ==> !HarmlessAt(front, i);
    }
  }

  lemma EmptyNode(rootKey: nat)
    ensures StandsFor(Node(EMPTY_STORE, None), rootKey, map[])
  {
  }

  lemma CollisionsStick(env: Env, n: Node, rootKey: nat, c: Modify)
    ensures n.store.collided ==> AfterSet(env, n, rootKey, c).store.collided
    ensures c.v != JLit(LUndefined) ==>
      SetAt(env, n.store, Root(n, rootKey), c.path, c.v).s.collided ==> AfterSet(env, n, rootKey, c).store.collided
  {
    hide SetAt, Root, Upload;
  }

  lemma {:induction false} UpdateKeepsFaithful(m: map<string, Value>, path: seq<string>, v: Value)
    requires Settable(m, path) && Faithful(VObject(m)) && Faithful(v)
    ensures Faithful(VObject(Update(m, path, v)))
    decreases |path|
  {
    if |path| <= 1 {
    } else {
      assert Faithful(m[path[0]]);
      UpdateKeepsFaithful(m[path[0]].items, path[1..], v);
    }
  }

  lemma RootStands(n: Node, rootKey: nat)
    requires RootOk(n, rootKey)
    ensures StoreOk(n.store) && Sound(n.store, Root(n, rootKey))
    ensures StandsFor(n, rootKey, View(n.store, Root(n, rootKey)))
    ensures Faithful(VObject(View(n.store, Root(n, rootKey))))
  {
    hide StoreOk, Sound, View, Contents, JsonValue, JsonMap, Faithful;
    RootIsSound(n, rootKey);
    var m := View(n.store, Root(n, rootKey));
    if n.local.None? {
      EmptyTracker(n.store);
    } else {
      DownloadedIsSound(n.store, EncFile(rootKey, n.local.value));
    }
    StandsForJson(n, rootKey, m);
    AsJson(m);
    JsonKeepsFaithful(VObject(m));
  }

  /** Whatever calls are made, the root file can be read. */
  lemma {:induction false} RunsKeepRoot(env: Env, rootKey: nat, ms: seq<Modify>)
    requires !AfterSets(env, Node(EMPTY_STORE, None), rootKey, ms).store.collided
    ensures RootOk(AfterSets(env, Node(EMPTY_STORE, None), rootKey, ms), rootKey)
  {
    hide RootOk, StandsFor, AfterSet, Sound, View, StoreOk, Root;
    if ms == [] {
      EmptyNode(rootKey);
      StandsForHasRoot(Node(EMPTY_STORE, None), rootKey, map[]);
    } else {
      var n, c := AfterSets(env, Node(EMPTY_STORE, None), rootKey, ms[..|ms| - 1]), ms[|ms| - 1];
      CollisionsStick(env, n, rootKey, c);
      RunsKeepRoot(env, rootKey, ms[..|ms| - 1]);
      RootStands(n, rootKey);
      SetStandsFor(env, n, rootKey, View(n.store, Root(n, rootKey)), c);
    }
  }

  /** Read your own writes: after any run whatsoever, one more SET to a stored object is read
      back at its path, from a freshly loaded root, if and only if it names no `__proto__`
      and JSON can hold the value; and then every disjoint path reads as before. */
  lemma ReadYourWriteIff(env: Env, rootKey: nat, ms: seq<Modify>, c: Modify, q: seq<string>)
    requires Proper(c.v) && c.v != JLit(LUndefined)
    requires !AfterSets(env, Node(EMPTY_STORE, None), rootKey, ms + [c]).store.collided
    ensures var n := AfterSets(env, Node(EMPTY_STORE, None), rootKey, ms);
      var n' := AfterSet(env, n, rootKey, c);
      && RootOk(n, rootKey) && Sound(n.store, Root(n, rootKey))
      && RootOk(n', rootKey) && Sound(n'.store, Root(n', rootKey))
      && var m, m' := View(n.store, Root(n, rootKey)), View(n'.store, Root(n', rootKey));
      Settable(m, c.path) ==>
        && (Lookup(m', c.path) == Got(Meaning(c.v)) <==> PlainWrite(c.path, c.v) && Faithful(Meaning(c.v)))
        && (PlainWrite(c.path, c.v) && Faithful(Meaning(c.v)) && Disjoint(c.path, q) ==> Lookup(m', q) == Lookup(m, q))
  {
    hide AfterSet, StandsFor, Lookup, Settable, PlainWrite, Meaning, Faithful, Disjoint, View, Root, RootOk, Sound,
      StoreOk, Proper;
    var n := AfterSets(env, Node(EMPTY_STORE, None), rootKey, ms);
    assert (ms + [c])[..|ms + [c]| - 1] == ms;
    CollisionsStick(env, n, rootKey, c);
    RunsKeepRoot(env, rootKey, ms);
    RootStands(n, rootKey);
    var m := View(n.store, Root(n, rootKey));
    SetStandsFor(env, n, rootKey, m, c);
    RootIsSound(AfterSet(env, n, rootKey, c), rootKey);
    if Settable(m, c.path) {
      WriteIsReadIff(env, rootKey, n, m, c, q);
    }
  }

  /** Read your own writes, part by part: after any run, what one more plain SET wrote is
      found again, a text as that text, an array element under its index, an entry under its
      name, and nothing under any other name. */
  lemma PartsAreRead(env: Env, rootKey: nat, ms: seq<Modify>, c: Modify, i: nat, k: string)
    requires Proper(c.v) && c.v != JLit(LUndefined) && PlainWrite(c.path, c.v) && Faithful(Meaning(c.v))
    requires !AfterSets(env, Node(EMPTY_STORE, None), rootKey, ms + [c]).store.collided
    ensures var n := AfterSets(env, Node(EMPTY_STORE, None), rootKey, ms);
      var n' := AfterSet(env, n, rootKey, c);
      && RootOk(n, rootKey) && Sound(n.store, Root(n, rootKey))
      && RootOk(n', rootKey) && Sound(n'.store, Root(n', rootKey))
      && var m, m' := View(n.store, Root(n, rootKey)), View(n'.store, Root(n', rootKey));
      Settable(m, c.path) ==>
        && (c.v.JLit? ==> Lookup(m', c.path) == Got(VLit(c.v.l)))
        && (c.v.JText? ==> Lookup(m', c.path) == Got(VText(c.v.s)))
        && (c.v.JBytes? ==> Lookup(m', c.path) == Got(VBytes(c.v.b)))
        && (c.v.JArray? && i < |c.v.elems| ==> Lookup(m', c.path + [Decimal(i)]) == Got(Meaning(c.v.elems[i])))
        && (c.v.JObject? && i < |c.v.entries| ==>
              Lookup(m', c.path + [c.v.entries[i].k]) == Got(Meaning(c.v.entries[i].v)))
        && (c.v.JArray? && c.v.elems != [] && k !in INHERITED
            && (forall j :: 0 <= j < |c.v.elems| ==> k != Decimal(j)) ==>
              Lookup(m', c.path + [k]) == Missing)
        && (c.v.JObject? && c.v.entries != [] && k !in INHERITED && (forall e :: e in c.v.entries ==> k != e.k) ==>
              Lookup(m', c.path + [k]) == Missing)
  {
    hide AfterSet, AfterSets, StandsFor, Lookup, Settable, PlainWrite, Meaning, Faithful, Disjoint, View, Root, RootOk,
      Sound, StoreOk, Proper, Decimal;
    ReadYourWriteIff(env, rootKey, ms, c, []);
    ScalarMeaning(c.v);
    EmptyBufferIsUnfaithful();
    var n' := AfterSet(env, AfterSets(env, Node(EMPTY_STORE, None), rootKey, ms), rootKey, c);
    RootIsSound(n', rootKey);
    if Lookup(View(n'.store, Root(n', rootKey)), c.path) == Got(Meaning(c.v)) {
      PartsAreFound(View(n'.store, Root(n', rootKey)), c.path, c.v, i, k);
    }
  }

  lemma EmptyBufferIsUnfaithful()
    ensures !Faithful(VLit(LEmptyBuffer))
  {
  }

  lemma PartsAreFound(m: map<string, Value>, p: seq<string>, v: JsValue, i: nat, k: string)
    requires Lookup(m, p) == Got(Meaning(v)) && Proper(v)
    ensures v.JArray? && i < |v.elems| ==> Lookup(m, p + [Decimal(i)]) == Got(Meaning(v.elems[i]))
    ensures v.JObject? && i < |v.entries| ==> Lookup(m, p + [v.entries[i].k]) == Got(Meaning(v.entries[i].v))
    ensures v.JArray? && v.elems != [] && k !in INHERITED && (forall j :: 0 <= j < |v.elems| ==> k != Decimal(j)) ==>
      Lookup(m, p + [k]) == Missing
    ensures v.JObject? && v.entries != [] && k !in INHERITED && (forall e :: e in v.entries ==> k != e.k) ==>
      Lookup(m, p + [k]) == Missing
  {
    hide Meaning, Decimal, Readable, EntryAt;
    if v.JArray? && v.elems != [] {
      ArrayMeaning(v.elems);
      LookupThrough(m, p, [k]);
      if i < |v.elems| {
        LookupThrough(m, p, [Decimal(i)]);
        MeaningIsReadable(v.elems[i]);
      }
    }
    if v.JObject? && v.entries != [] {
      ObjectMeaning(v.entries);
      LookupThrough(m, p, [k]);
      if i < |v.entries| {
        LookupThrough(m, p, [v.entries[i].k]);
        MeaningIsReadable(v.entries[i].v);
      }
    }
  }

  /** The same for one call on a node that stands for `m`. */
  lemma WriteIsReadIff(env: Env, rootKey: nat, n: Node, m: map<string, Value>, c: Modify, q: seq<string>)
    requires StandsFor(n, rootKey, m) && Faithful(VObject(m)) && Proper(c.v)
    requires c.v != JLit(LUndefined) && Settable(m, c.path) && !AfterSet(env, n, rootKey, c).store.collided
    ensures var n' := AfterSet(env, n, rootKey, c);
      && RootOk(n', rootKey) && Sound(n'.store, Root(n', rootKey))
      && var m' := View(n'.store, Root(n', rootKey));
      && (Lookup(m', c.path) == Got(Meaning(c.v)) <==> PlainWrite(c.path, c.v) && Faithful(Meaning(c.v)))
      && (PlainWrite(c.path, c.v) && Faithful(Meaning(c.v)) && Disjoint(c.path, q) ==> Lookup(m', q) == Lookup(m, q))
  {
    hide AfterSet, HostSet, StandsFor, Lookup, Update, Settable, PlainWrite, Meaning, Faithful, Disjoint, View, Root,
      RootOk, Sound, StoreOk, HasProto, Proper;
    var n' := AfterSet(env, n, rootKey, c);
    SetStandsFor(env, n, rootKey, m, c);
    RootIsSound(n', rootKey);
    if PlainWrite(c.path, c.v) {
      RootStandsFor(n', rootKey, PlainSet(m, c));
      PlainWriteReadsBackIff(m, c, q);
    } else if Lookup(View(n'.store, Root(n', rootKey)), c.path) == Got(Meaning(c.v)) {
      ViewHasNoProto(n'.store, Root(n', rootKey));
      FoundHasNoProto(View(n'.store, Root(n', rootKey)), c.path);
      NotPlain(c);
    }
  }

  /** On the plain nested map. */
  lemma PlainWriteReadsBackIff(m: map<string, Value>, c: Modify, q: seq<string>)
    requires Faithful(VObject(m)) && c.v != JLit(LUndefined) && Settable(m, c.path)
    ensures Lookup(PlainSet(m, c), c.path) == Got(Meaning(c.v)) <==> Faithful(Meaning(c.v))
    ensures Faithful(Meaning(c.v)) && Disjoint(c.path, q) ==> Lookup(PlainSet(m, c), q) == Lookup(m, q)
  {
    hide Settable, Update, Meaning, Lookup, Faithful, Disjoint, Readable, JsonMap;
    var v := Meaning(c.v);
    MeaningIsReadable(c.v);
    if Faithful(v) {
      UpdateKeepsFaithful(m, c.path, v);
      FaithfulIsFixed(Update(m, c.path, v));
      LookupAfterUpdate(m, c.path, v);
      if Disjoint(c.path, q) {
        LookupElsewhere(m, c.path, v, q);
      }
    } else {
      JsonLookup(m, c.path, v);
      JsonKeepsFaithful(v);
    }
  }

  /** What is found after an update that went through JSON did so, too. */
  lemma {:induction false} JsonLookup(m: map<string, Value>, path: seq<string>, v: Value)
    requires Settable(m, path)
    ensures Lookup(JsonMap(Update(m, path, v)), path) in {Got(JsonValue(v)), Threw}
    decreases |path|
  {
    if |path| <= 1 {
    } else {
      JsonLookup(m[path[0]].items, path[1..], v);
    }
  }

  /** Nothing can be found at or below the key `__proto__` in a map that does not have it. */
  lemma {:induction false} FoundHasNoProto(m: map<string, Value>, path: seq<string>)
    requires !HasProto(VObject(m)) && Lookup(m, path).Got?
    ensures path != [] && path[|path| - 1] != PROTO && !HasProto(Lookup(m, path).v)
    decreases |path|
  {
    if |path| <= 1 {
    } else {
      assert !HasProto(m[path[0]]);
      FoundHasNoProto(m[path[0]].items, path[1..]);
    }
  }

  lemma NotPlain(c: Modify)
    requires c.path != [] && !PlainWrite(c.path, c.v) && Proper(c.v)
    ensures c.path[|c.path| - 1] == PROTO || HasProto(Meaning(c.v))
  {
    hide Meaning, NoProto, HasProto, Proper;
    if c.path[|c.path| - 1] != PROTO {
      MeaningHasProto(c.v);
    }
  }

  /** What `serialize` finds when the item is the prototype of `items`. */
  function WithStrays(i: Item, m: map<string, Value>): map<string, Value>
    requires i.ISub? ==> i.sub.encFile.Some?
  {
    map["t" := VStray(Tag(TagOf(i))), "v" := VStray(StrayOf(i))] + m
  }

  /** The stray items can be serialised, too. */
  predicate StraysFit(i: Item, m: map<string, Value>)
    requires i.ISub? ==> i.sub.encFile.Some?
  {
    Breaks(StrayOf(i)) ==> "v" in m
  }

  /** Assigning an item at `__proto__`, and uploading. */
  lemma StraysAssigned(env: Env, s: Store, s1: Store, c: Tracker, i: Item)
    requires StoreOk(s) && Sound(s, c) && Uploaded(c) && StoreOk(s1) && Extends(s, s1)
    requires ItemOk(s1, i) && (i.ISub? ==> i.sub.encFile.Some?)
    requires forall x :: x in View(s, c) ==> !BreaksValue(View(s, c)[x])
    requires Uploaded(c.(items := Assigned(c.items, PROTO, i)))
    requires !Finish(env, s1, c.(items := Assigned(c.items, PROTO, i))).s.collided
    ensures var r := Finish(env, s1, c.(items := Assigned(c.items, PROTO, i)));
      && StoreOk(r.s) && Extends(s, r.s) && (r.Done? <==> StraysFit(i, View(s, c)))
      && (r.Done? ==> Sound(r.s, r.t) && Synced(r.s, r.t) && View(r.s, r.t) == WithStrays(i, View(s, c)))
  {
    hide StoreOk, Sound, Synced, View, ItemOk, ItemValue, Upload, Uploaded, Serializable, TagOf, StrayOf, Breaks;
    var c1 := c.(items := Assigned(c.items, PROTO, i));
    SoundStable(s, s1, c);
    ProtoAssigned(s1, c, i);
    StraysView(s1, c, c1, i);
    SerializableView(s1, c1);
    StraysSerialize(i, View(s, c));
    if Serializable(c1) {
      UploadKeepsView(env, s1, c1, None);
      ExtendsTransitive(s, s1, Upload(env, s1, c1, None).1);
    }
  }

  lemma StraysSerialize(i: Item, m: map<string, Value>)
    requires (i.ISub? ==> i.sub.encFile.Some?) && forall x :: x in m ==> !BreaksValue(m[x])
    ensures (forall x :: x in WithStrays(i, m) ==> !BreaksValue(WithStrays(i, m)[x])) <==> StraysFit(i, m)
  {
    hide StrayOf;
    assert "v" in WithStrays(i, m);
  }

  lemma StraysView(s: Store, c: Tracker, c1: Tracker, i: Item)
    requires StoreOk(s) && Sound(s, c) && Sound(s, c1) && (i.ISub? ==> i.sub.encFile.Some?)
    requires c1.items == map["t" := IStray(Tag(TagOf(i))), "v" := IStray(StrayOf(i))] + c.items
    ensures View(s, c1) == WithStrays(i, View(s, c))
  {
    hide StoreOk, Sound, ItemOk, View, ItemValue, TagOf, StrayOf;
    ViewKeys(s, c);
    ViewKeys(s, c1);
    StrayValue(s, Tag(TagOf(i)));
    StrayValue(s, StrayOf(i));
    var u, u1 := View(s, c), View(s, c1);
    forall k | k in u1 ensures k in WithStrays(i, u) && u1[k] == WithStrays(i, u)[k] {
      if k in c.items {
        assert c1.items[k] == c.items[k];
      }
    }
    assert u1.Keys == WithStrays(i, u).Keys;
  }

  lemma StrayValue(s: Store, x: Stray)
    requires StoreOk(s)
    ensures ItemOk(s, IStray(x)) && ItemValue(s, IStray(x)) == VStray(x)
  {
  }

  /** What `set` needs at `__proto__` inside a stored object. */
  lemma SettableInside(m: map<string, Value>, k: string)
    requires Settable(m, [k, PROTO])
    ensures k in m && m[k].VObject?
    ensures forall x :: x in m && x != k ==> !BreaksValue(m[x])
    ensures PROTO !in m[k].items ==> forall x :: x in m[k].items ==> !BreaksValue(m[k].items[x])
  {
    assert [k, PROTO][1..] == [PROTO];
  }

  /** A write at `__proto__` inside a stored object, unless two files collide: it throws if
      the value cannot be made an item, or if the object cannot be serialised with the stray
      names; otherwise the value is lost, and the object has the stray items from then on. */
  lemma ProtoWrite(env: Env, s: Store, t: Tracker, k: string, v: JsValue)
    requires StoreOk(s) && Sound(s, t) && Uploaded(t) && Settable(View(s, t), [k, PROTO])
    requires !SetAt(env, s, t, [k, PROTO], v).s.collided
    ensures var r := SetAt(env, s, t, [k, PROTO], v);
      var i := MakeItem(env, s, v).item;
      && StoreOk(r.s) && Extends(s, r.s)
      && (r.Done? <==> i.Some? && StraysFit(i.value, View(s, t)[k].items))
      && (r.Done? ==>
            && Sound(r.s, r.t) && Synced(r.s, r.t)
            && View(r.s, r.t) == View(s, t)[k := VObject(WithStrays(i.value, View(s, t)[k].items))])
  {
    hide StoreOk, Sound, Synced, View, ItemOk, ItemValue, Contents, Child, MakeItem, Finish, Uploaded, Settable,
      BreaksValue, TagOf, StrayOf, Breaks, NoProto, Meaning, Extends;
    ViewKeys(s, t);
    SettableInside(View(s, t), k);
    ChildView(s, t, k);
    var c := Child(s, t.items[k]).value;
    assert [k, PROTO][1..] == [PROTO];
    var r := SetAt(env, s, c, [PROTO], v);
    var made := MakeItem(env, s, v);
    SoundLoads(s, c, PROTO);
    ViewHasNoProto(s, c);
    assert LoadedAt(s, c, PROTO) == c;
    assert r == SetKey(env, s, c, PROTO, v);
    MakeItemMeans(env, s, v);
    if made.item.Some? {
      AssignedUploaded(c, PROTO, made.item.value);
      StraysAssigned(env, s, made.s, c, made.item.value);
      if r.Done? {
        var i := ISub(t.items[k].isArray, r.t);
        SubItem(r.s, i);
        PathKeyIsPlain(s, t, k);
        assert Assigned(t.items, k, i) == t.items[k := i];
        AssignAndFinish(env, s, r.s, t, k, i);
      }
    }
  }

  /** The same write as a call on the node. */
  lemma ProtoSet(env: Env, n: Node, rootKey: nat, m: map<string, Value>, k: string, v: JsValue)
    requires StandsFor(n, rootKey, m) && Settable(m, [k, PROTO]) && v != JLit(LUndefined)
    requires !AfterSet(env, n, rootKey, Modify([k, PROTO], v)).store.collided
    ensures var r := HostSet(env, n, rootKey, Modify([k, PROTO], v));
      var i := MakeItem(env, n.store, v).item;
      && (r.ok <==> i.Some? && StraysFit(i.value, m[k].items))
      && (r.ok ==> StandsFor(r.node, rootKey, m[k := JsonValue(VObject(WithStrays(i.value, m[k].items)))]))
  {
    hide StoreOk, SetAt, View, Contents, Sound, Upload, Settable, Root, MakeItem, WithStrays, StraysFit, JsonValue;
    RootStandsFor(n, rootKey, m);
    CollisionsStick(env, n, rootKey, Modify([k, PROTO], v));
    ProtoWrite(env, n.store, Root(n, rootKey), k, v);
    var r := SetAt(env, n.store, Root(n, rootKey), [k, PROTO], v);
    if r.Done? {
      UploadKeepsView(env, r.s, r.t, Some(rootKey));
      var (t', s') := Upload(env, r.s, r.t, Some(rootKey));
      SyncedRefers(s', t');
      FileHoldsJsonOfView(s', t');
      StandsForJson(n, rootKey, m);
      SettableInside(m, k);
      JsonOfChanged(m, k, VObject(WithStrays(MakeItem(env, n.store, v).item.value, m[k].items)));
    }
  }

  lemma JsonOfChanged(m: map<string, Value>, k: string, v: Value)
    requires JsonMap(m) == m
    ensures JsonMap(m[k := v]) == m[k := JsonValue(v)]
  {
    hide JsonValue;
    forall y | y in m ensures JsonValue(m[y]) == m[y] {
      assert JsonMap(m)[y] == m[y];
    }
  }

  /** SET [host] := {a: true}, and SET [host, "__proto__"] := v. */
  function SpoilingRun(host: string, v: JsValue): (ms: seq<Modify>)
    ensures |ms| == 2
  {
    [Modify([host], JObject([Entry("a", JLit(LBool(true)))])), Modify([host, PROTO], v)]
  }

  function OneFlag(host: string): map<string, Value> {
    map[host := VObject(map["a" := VLit(LBool(true))])]
  }

  /** `OneFlag` with the stray items that a write of the item leaves after a reload. */
  function Spoiled(host: string, i: Item): map<string, Value>
    requires i.ISub? ==> i.sub.encFile.Some?
  {
    OneFlag(host)[host := JsonValue(VObject(WithStrays(i, OneFlag(host)[host].items)))]
  }

  lemma SpoilingRunStands(env: Env, rootKey: nat, host: string, v: JsValue)
    requires host != PROTO && v != JLit(LUndefined)
    requires !AfterSets(env, Node(EMPTY_STORE, None), rootKey, SpoilingRun(host, v)).store.collided
    ensures var n := AfterSets(env, Node(EMPTY_STORE, None), rootKey, SpoilingRun(host, v)[..1]);
      var r := HostSet(env, n, rootKey, SpoilingRun(host, v)[1]);
      var i := MakeItem(env, n.store, v).item;
      && StandsFor(n, rootKey, OneFlag(host))
      && r.node == AfterSets(env, Node(EMPTY_STORE, None), rootKey, SpoilingRun(host, v))
      && (i.Some? && !Breaks(StrayOf(i.value)) ==> r.ok && StandsFor(r.node, rootKey, Spoiled(host, i.value)))
  {
    hide AfterSet, HostSet, StandsFor, PlainSet, AfterSets, PlainSets, Settable, MakeItem, WithStrays, JsonValue,
      StrayOf, Breaks;
    var ms := SpoilingRun(host, v);
    RunUnfolds(env, rootKey, ms);
    var n := AfterSets(env, Node(EMPTY_STORE, None), rootKey, ms[..1]);
    CollisionsStick(env, n, rootKey, ms[1]);
    FirstCallStands(env, rootKey, ms, host, v);
    FlagIsSettable(host);
    ProtoSet(env, n, rootKey, OneFlag(host), host, v);
  }

  /** After SET [host] := {a: true} and SET [host, "__proto__"] := x, both of which answer
      without an error, neither the text nor the object can be read, although `a` can. And
      already before the second call, reading the inherited name "toString" throws. */
  lemma ProtoWriteIsLost(env: Env, rootKey: nat, host: string, x: string)
    requires host != PROTO
    requires !AfterSets(env, Node(EMPTY_STORE, None), rootKey, SpoilingRun(host, JText(x))).store.collided
    ensures var n := AfterSets(env, Node(EMPTY_STORE, None), rootKey, SpoilingRun(host, JText(x))[..1]);
      var r := HostSet(env, n, rootKey, SpoilingRun(host, JText(x))[1]);
      && StandsFor(n, rootKey, OneFlag(host))
      && Lookup(OneFlag(host), [host, "toString"]) == Threw
      && r.ok && RootOk(r.node, rootKey) && Sound(r.node.store, Root(r.node, rootKey))
      && var m' := View(r.node.store, Root(r.node, rootKey));
      && Lookup(m', [host, PROTO]) == Threw && Lookup(m', [host]) == Threw
      && Lookup(m', [host, "a"]) == Got(VLit(LBool(true)))
  {
    hide AfterSet, HostSet, StandsFor, Root, Sound, View, RootOk, Lookup, Readable, AfterSets, Settable, Encrypt,
      Spoiled;
    SpoilingRunStands(env, rootKey, host, JText(x));
    FlagIsSettable(host);
    var n := AfterSets(env, Node(EMPTY_STORE, None), rootKey, SpoilingRun(host, JText(x))[..1]);
    var n' := HostSet(env, n, rootKey, SpoilingRun(host, JText(x))[1]).node;
    var i := MakeItem(env, n.store, JText(x)).item.value;
    RootStandsFor(n', rootKey, Spoiled(host, i));
    StandsForHasRoot(n', rootKey, Spoiled(host, i));
    SpoiledLookups(host, i);
  }

  /** After SET [host] := {a: true} and SET [host, "__proto__"] := Infinity, which both
      answer without an error, the object has the stray item null, and no SET inside it
      succeeds any more, whatever the path in it and the value. */
  lemma StrayNullFreezes(env: Env, rootKey: nat, host: string, q: seq<string>, w: JsValue)
    requires host != PROTO && q != []
    requires var n := AfterSets(env, Node(EMPTY_STORE, None), rootKey, SpoilingRun(host, JLit(LNotFinite)));
      !n.store.collided && !AfterSet(env, n, rootKey, Modify([host] + q, w)).store.collided
    ensures var n := AfterSets(env, Node(EMPTY_STORE, None), rootKey, SpoilingRun(host, JLit(LNotFinite))[..1]);
      var r := HostSet(env, n, rootKey, SpoilingRun(host, JLit(LNotFinite))[1]);
      var r' := HostSet(env, r.node, rootKey, Modify([host] + q, w));
      var m := map[host := VObject(map["a" := VLit(LBool(true)), "t" := VStray(Tag('L')), "v" := VStray(NULL_STRAY)])];
      && r.ok && StandsFor(r.node, rootKey, m)
      && !r'.ok && StandsFor(r'.node, rootKey, m)
  {
    hide HostSet, StandsFor, AfterSets, Settable, Update, Spoiled, Meaning, PlainWrite;
    SpoilingRunStands(env, rootKey, host, JLit(LNotFinite));
    SpoiledByInfinity(host);
    var n := AfterSets(env, Node(EMPTY_STORE, None), rootKey, SpoilingRun(host, JLit(LNotFinite)));
    var m := Spoiled(host, ILit(LNotFinite));
    NullStrayBlocks(m, host, "v", q);
    SetStandsFor(env, n, rootKey, m, Modify([host] + q, w));
  }

  lemma SpoiledByInfinity(host: string)
    ensures Spoiled(host, ILit(LNotFinite)) ==
      map[host := VObject(map["a" := VLit(LBool(true)), "t" := VStray(Tag('L')), "v" := VStray(NULL_STRAY)])]
  {
    var u := map["a" := VLit(LBool(true)), "t" := VStray(Tag('L')), "v" := VStray(LiteralStray(LNotFinite))];
    assert WithStrays(ILit(LNotFinite), OneFlag(host)[host].items) == u;
    AsJson(u);
    assert JsonMap(u) == map["a" := VLit(LBool(true)), "t" := VStray(Tag('L')), "v" := VStray(NULL_STRAY)];
  }

  /** A stray null stands in the way of every write inside its object. */
  lemma NullStrayBlocks(m: map<string, Value>, k: string, x: string, q: seq<string>)
    requires k in m && m[k].VObject? && x in m[k].items && m[k].items[x] == VStray(NULL_STRAY) && q != []
    ensures !Settable(m, [k] + q)
  {
    assert ([k] + q)[1..] == q;
    assert BreaksValue(m[k].items[x]);
    assert !NothingInTheWay(m[k].items, q[0]);
  }

  /** An object that names null or undefined as its `__proto__` cannot be stored: its tracker
      would have to serialise a stray item that has no properties. Any other literal there
      can. */
  lemma NullPrototypeThrows(env: Env, s: Store, l: Literal)
    ensures MakeItem(env, s, JObject([Entry("__proto__", JLit(l))])).item.None? <==> l == LNull || l == LUndefined
  {
    hide Encrypt;
    var v := JObject([Entry("__proto__", JLit(l))]);
    var t := Tracker(map[], None);
    assert Build(env, s, v, 0) == Done(t, s) && EntryAt(v, 0) == Entry(PROTO, JLit(l));
    assert Build(env, s, v, 1) == SetKey(env, s, t, PROTO, JLit(l));
    var items := Assigned(map[], PROTO, ILit(l));
    assert items["t"] == IStray(Tag('L')) && items["v"] == IStray(LiteralStray(l));
    assert SetKey(env, s, t, PROTO, JLit(l)) == Finish(env, s, t.(items := items));
  }

  lemma RunUnfolds(env: Env, rootKey: nat, ms: seq<Modify>)
    requires |ms| == 2
    ensures var n := AfterSets(env, Node(EMPTY_STORE, None), rootKey, ms[..1]);
      && n == AfterSet(env, Node(EMPTY_STORE, None), rootKey, ms[0])
      && AfterSets(env, Node(EMPTY_STORE, None), rootKey, ms) == AfterSet(env, n, rootKey, ms[1])
      && AfterSet(env, n, rootKey, ms[1]) == HostSet(env, n, rootKey, ms[1]).node
  {
    hide HostSet;
    assert ms[..1][..0] == [];
  }

  lemma FirstCallStands(env: Env, rootKey: nat, ms: seq<Modify>, host: string, v: JsValue)
    requires ms == SpoilingRun(host, v) && host != PROTO
    requires !AfterSet(env, Node(EMPTY_STORE, None), rootKey, ms[0]).store.collided
    ensures StandsFor(AfterSet(env, Node(EMPTY_STORE, None), rootKey, ms[0]), rootKey, OneFlag(host))
  {
    hide AfterSet, StandsFor;
    EmptyNode(rootKey);
    SetStandsFor(env, Node(EMPTY_STORE, None), rootKey, map[], ms[0]);
    FlagIsPlain(host, v);
  }

  lemma FlagIsPlain(host: string, v: JsValue)
    requires host != PROTO
    ensures var c := SpoilingRun(host, v)[0];
      PlainSet(map[], c) == OneFlag(host) && PlainWrite(c.path, c.v)
  {
    var c := SpoilingRun(host, v)[0];
    assert Meaning(c.v) == VObject(map["a" := VLit(LBool(true))]) by {
      assert MeaningOf(c.v, 0) == map[];
    }
    assert Update(map[], c.path, Meaning(c.v)) == OneFlag(host);
    assert JsonMap(map["a" := VLit(LBool(true))]) == map["a" := VLit(LBool(true))];
    AsJson(map["a" := VLit(LBool(true))]);
  }

  lemma FlagIsSettable(host: string)
    ensures Settable(OneFlag(host), [host, PROTO])
    ensures Lookup(OneFlag(host), [host, "toString"]) == Threw
  {
    assert [host, PROTO][1..] == [PROTO] && [host, "toString"][1..] == ["toString"];
  }

  lemma SpoiledLookups(host: string, i: Item)
    requires i.ISub? ==> i.sub.encFile.Some?
    ensures var m' := Spoiled(host, i);
      && Lookup(m', [host, PROTO]) == Threw && Lookup(m', [host]) == Threw
      && Lookup(m', [host, "a"]) == Got(VLit(LBool(true)))
  {
    hide StrayOf, TagOf;
    var u := WithStrays(i, OneFlag(host)[host].items);
    AsJson(u);
    var j := JsonMap(u);
    assert !Readable(j["t"]);
    assert !Readable(VObject(j));
    assert j["a"] == VLit(LBool(true)) && PROTO !in j;
    assert [host, PROTO][1..] == [PROTO] && [host, "a"][1..] == ["a"];
  }

  lemma FaithfulIsFixed(m: map<string, Value>)
    requires Faithful(VObject(m))
    ensures JsonMap(m) == m
  {
    JsonKeepsFaithful(VObject(m));
  }
}
