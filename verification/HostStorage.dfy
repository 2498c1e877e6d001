/** The encrypted host storage (`src/client/hostStorage.ts`) as values: trackers whose
    children are loaded on demand, a content-addressed store of ciphertexts, and the plain
    nested map that both stand for. */
module HostStorage {
  import opened Common

  // ---------------------------------------------------------------- plain values

  /** The values that are kept inside a tracker's JSON: scalars and empty containers. */
  datatype Literal = LNull | LUndefined | LBool(b: bool) | LNumber(n: real) | LMinusZero | LNotFinite
                   | LEmptyObject | LEmptyArray | LEmptyBuffer | LBufferJson

  /** What `JSON.parse(JSON.stringify(...))` makes of a literal: NaN and the infinities
      become null, -0 becomes 0, and a Buffer becomes the object `{type: 'Buffer', data: []}`. */
  function JsonRound(l: Literal): Literal {
    match l
    case LNotFinite => LNull
    case LMinusZero => LNumber(0.0)
    case LEmptyBuffer => LBufferJson
    case _ => l
  }

  /** `items[k] = {t, v}` with this key replaces the prototype of `items`. */
  const PROTO := "__proto__"

  /** The names that every object without such a key of its own inherits. */
  const INHERITED := {
    PROTO, "__defineGetter__", "__defineSetter__", "__lookupGetter__", "__lookupSetter__", "constructor",
    "hasOwnProperty", "isPrototypeOf", "propertyIsEnumerable", "toLocaleString", "toString", "valueOf"
  }

  /** What `for (const k in this.items)` finds under `t` and `v` when the prototype of
      `items` is a `{t, v}`: its tag, and its file reference, tracker or literal. None of
      these has a `t` or `v` of its own, so none can be read as an item. */
  datatype Stray = Tag(t: char) | FileStray(e: EncFile) | TrackerStray(e: EncFile) | LiteralStray(l: Literal)

  function JsonStray(x: Stray): Stray {
    match x
    case LiteralStray(l) => LiteralStray(JsonRound(l))
    case _ => x
  }

  /** A stray name that is null: `_sub` reads `item.t` of it. */
  const NULL_STRAY := LiteralStray(LNull)

  /** `serialize` reads `item.v`, which null and undefined do not have. */
  predicate Breaks(x: Stray) {
    x == NULL_STRAY || x == LiteralStray(LUndefined)
  }

  /** The nested map that a tracker stands for. */
  datatype Value = VLit(l: Literal) | VText(s: string) | VBytes(b: seq<nat>) | VObject(items: map<string, Value>)
                 | VStray(x: Stray)

  /** Nothing in the value throws when it is read. */
  predicate Readable(v: Value) {
    match v
    case VObject(m) => forall k :: k in m ==> Readable(m[k])
    case VStray(_) => false
    case _ => true
  }

  predicate BreaksValue(v: Value) {
    v.VStray? && Breaks(v.x)
  }

  /** Some object in the value has the key `__proto__`. */
  predicate HasProto(v: Value) {
    v.VObject? && (PROTO in v.items || exists k :: k in v.items && HasProto(v.items[k]))
  }

  /** The values a caller may pass to `set`; an array has its indices for keys. */
  datatype JsValue = JLit(l: Literal) | JText(s: string) | JBytes(b: seq<nat>)
                   | JObject(entries: seq<Entry>) | JArray(elems: seq<JsValue>)
  datatype Entry = Entry(k: string, v: JsValue)

  function Digit(n: nat): char
    requires n < 10
  {
    "0123456789"[n]
  }

  function Decimal(n: nat): string {
    if n < 10 then [Digit(n)] else Decimal(n / 10) + [Digit(n % 10)]
  }

  /** `Object.keys(v).length` of an object or an array. */
  function EntryCount(v: JsValue): nat {
    match v
    case JObject(es) => |es|
    case JArray(vs) => |vs|
    case _ => 0
  }

  function EntryAt(v: JsValue, i: nat): (e: Entry)
    requires i < EntryCount(v)
    ensures e.v < v
  {
    match v
    case JObject(es) => es[i]
    case JArray(vs) => Entry(Decimal(i), vs[i])
  }

  /** What a stored value reads back as: arrays become index-keyed objects. */
  function Meaning(v: JsValue): Value
    decreases v, 1, 0
  {
    match v
    case JLit(l) => VLit(l)
    case JText(s) => VText(s)
    case JBytes(b) => if b == [] then VLit(LEmptyBuffer) else VBytes(b)
    case JObject(es) => if es == [] then VLit(LEmptyObject) else VObject(MeaningOf(v, |es|))
    case JArray(vs) => if vs == [] then VLit(LEmptyArray) else VObject(MeaningOf(v, |vs|))
  }

  function MeaningOf(v: JsValue, n: nat): map<string, Value>
    requires n <= EntryCount(v)
    decreases v, 0, n
  {
    if n == 0 then map[]
    else
      var e := EntryAt(v, n - 1);
      MeaningOf(v, n - 1)[e.k := Meaning(e.v)]
  }

  /** No object in the value has an entry named `__proto__`. */
  predicate NoProto(v: JsValue) {
    forall i :: 0 <= i < EntryCount(v) ==> EntryAt(v, i).k != PROTO && NoProto(EntryAt(v, i).v)
  }

  /** An object has each entry once. */
  predicate EachOnce(v: JsValue) {
    v.JObject? ==> forall i, j :: 0 <= i < j < |v.entries| ==> v.entries[i].k != v.entries[j].k
  }

  /** So have all objects in the value. */
  predicate Proper(v: JsValue) {
    && EachOnce(v)
    && forall i :: 0 <= i < EntryCount(v) ==> Proper(EntryAt(v, i).v)
  }

  // ----------------------------------------------------------------- the store

  /** A key and a file id: enough to fetch and decrypt a file. */
  datatype EncFile = EncFile(key: nat, id: string)

  /** An item as it stands in a tracker's JSON. */
  datatype Stored = SLit(l: Literal) | SText(e: EncFile) | SBytes(e: EncFile) | SObject(isArray: bool, e: EncFile)
                  | SStray(x: Stray)

  datatype Plain = PText(s: string) | PBytes(b: seq<nat>) | PItems(items: map<string, Stored>)

  /** Ciphers are taken symbolically: decrypting needs the key and gives the plaintext. */
  datatype Cipher = Cipher(key: nat, iv: nat, plain: Plain)

  /** The remote store, with the order in which files were first stored, the number of
      random draws made, and whether two different files ever had the same hash. */
  datatype Store = Store(blobs: map<string, Cipher>, order: map<string, nat>, next: nat, drawn: nat, collided: bool)

  datatype Env = Env(hash: Cipher -> string, random: nat -> nat)

  const EMPTY_STORE := Store(map[], map[], 0, 0, false)

  /** `uploadData` on a single chunk: an id that is already there is not written again. */
  function Put(env: Env, s: Store, c: Cipher): Store {
    var id := env.hash(c);
    if id in s.blobs then s.(collided := s.collided || s.blobs[id] != c)
    else s.(blobs := s.blobs[id := c], order := s.order[id := s.next], next := s.next + 1)
  }

  /** `encryptDataSymmetric` and `uploadData`, with a random key unless one is forced. */
  function Encrypt(env: Env, s: Store, p: Plain, forced: Option<nat>): (EncFile, Store) {
    var key := if forced.Some? then forced.value else env.random(s.drawn);
    var c := Cipher(key, env.random(s.drawn + 1), p);
    (EncFile(key, env.hash(c)), Put(env, s.(drawn := s.drawn + 2), c))
  }

  predicate RefersTo(s: Store, e: EncFile) {
    e.id in s.blobs && s.blobs[e.id].key == e.key
  }

  predicate StoredOk(s: Store, i: Stored) {
    match i
    case SLit(_) => true
    case SText(e) => RefersTo(s, e) && s.blobs[e.id].plain.PText?
    case SBytes(e) => RefersTo(s, e) && s.blobs[e.id].plain.PBytes?
    case SObject(_, e) => RefersTo(s, e) && s.blobs[e.id].plain.PItems?
    case SStray(_) => true
  }

  predicate Older(s: Store, i: Stored, id: string)
    requires s.order.Keys == s.blobs.Keys && id in s.blobs && StoredOk(s, i)
  {
    i.SLit? || i.SStray? || s.order[i.e.id] < s.order[id]
  }

  /** The literals in JSON text are those that JSON text can hold. */
  predicate Normal(i: Stored) {
    (i.SLit? ==> JsonRound(i.l) == i.l) && (i.SStray? ==> JsonStray(i.x) == i.x)
  }

  /** Every reference in the store resolves, to something stored earlier; and no stored
      object has the key `__proto__`. */
  ghost predicate StoreOk(s: Store) {
    && s.order.Keys == s.blobs.Keys
    && (forall id :: id in s.blobs ==> s.order[id] < s.next)
    && (forall id, k :: id in s.blobs && s.blobs[id].plain.PItems? && k in s.blobs[id].plain.items ==>
          StoredOk(s, s.blobs[id].plain.items[k]) && Older(s, s.blobs[id].plain.items[k], id))
    && (forall id, k :: id in s.blobs && s.blobs[id].plain.PItems? && k in s.blobs[id].plain.items ==>
          Normal(s.blobs[id].plain.items[k]) && k != PROTO)
  }

  ghost predicate Extends(s: Store, s': Store) {
    && (forall id :: id in s.blobs ==> id in s'.blobs && s'.blobs[id] == s.blobs[id])
    && (forall id :: id in s.order ==> id in s'.order && s'.order[id] == s.order[id])
    && (s.collided ==> s'.collided)
  }

  /** What a stored object stands for. */
  ghost function Contents(s: Store, id: string): map<string, Value>
    requires StoreOk(s) && id in s.blobs && s.blobs[id].plain.PItems?
    decreases s.order[id]
  {
    var items := s.blobs[id].plain.items;
    map k | k in items ::
      match items[k]
      case SLit(l) => VLit(l)
      case SText(e) => VText(s.blobs[e.id].plain.s)
      case SBytes(e) => VBytes(s.blobs[e.id].plain.b)
      case SObject(_, e) => assert Older(s, items[k], id); VObject(Contents(s, e.id))
      case SStray(x) => VStray(x)
  }

  lemma {:induction false} ContentsStable(s: Store, s': Store, id: string)
    requires StoreOk(s) && StoreOk(s') && Extends(s, s') && id in s.blobs && s.blobs[id].plain.PItems?
    ensures Contents(s', id) == Contents(s, id)
    decreases s.order[id]
  {
    var items := s.blobs[id].plain.items;
    forall k | k in items && items[k].SObject?
      ensures Contents(s', items[k].e.id) == Contents(s, items[k].e.id)
    {
      assert Older(s, items[k], id);
      ContentsStable(s, s', items[k].e.id);
    }
  }

  // ----------------------------------------------------------------- trackers

  /** A tracker: its items, some of them loaded trackers, and the file it was read from or
      last uploaded to. */
  datatype Tracker = Tracker(items: map<string, Item>, encFile: Option<EncFile>)
  datatype Item = ILit(l: Literal) | IText(e: EncFile) | IBytes(e: EncFile)
                | IRef(isArray: bool, e: EncFile) | ISub(isArray: bool, sub: Tracker) | IStray(x: Stray)

  function ItemOf(i: Stored): Item {
    match i
    case SLit(l) => ILit(l)
    case SText(e) => IText(e)
    case SBytes(e) => IBytes(e)
    case SObject(a, e) => IRef(a, e)
    case SStray(x) => IStray(x)
  }

  /** `serialize` of one item; a loaded tracker is replaced by its file. */
  function StoredOf(i: Item): Stored
    requires i.ISub? ==> i.sub.encFile.Some?
  {
    match i
    case ILit(l) => SLit(JsonRound(l))
    case IText(e) => SText(e)
    case IBytes(e) => SBytes(e)
    case IRef(a, e) => SObject(a, e)
    case ISub(a, t) => SObject(a, t.encFile.value)
    case IStray(x) => SStray(JsonStray(x))
  }

  predicate KidsUploaded(t: Tracker) {
    forall k :: k in t.items && t.items[k].ISub? ==> t.items[k].sub.encFile.Some?
  }

  function Serialized(t: Tracker): map<string, Stored>
    requires KidsUploaded(t)
  {
    map k | k in t.items :: StoredOf(t.items[k])
  }

  /** The file of the tracker, if it has one, holds its current items. */
  predicate Synced(s: Store, t: Tracker)
    requires KidsUploaded(t)
  {
    t.encFile.Some? ==>
      && RefersTo(s, t.encFile.value)
      && s.blobs[t.encFile.value.id].plain == PItems(Serialized(t))
  }

  /** References resolve, and every loaded child is itself uploaded and in sync. */
  predicate Sound(s: Store, t: Tracker) {
    KidsUploaded(t) && forall k :: k in t.items ==> k != PROTO && ItemOk(s, t.items[k])
  }

  predicate ItemOk(s: Store, i: Item) {
    if i.ISub? then i.sub.encFile.Some? && Sound(s, i.sub) && Synced(s, i.sub) else StoredOk(s, StoredOf(i))
  }

  /** The nested map that the tracker stands for. */
  ghost function View(s: Store, t: Tracker): map<string, Value>
    requires StoreOk(s) && Sound(s, t)
  {
    map k | k in t.items :: ItemValue(s, t.items[k])
  }

  ghost function ItemValue(s: Store, i: Item): Value
    requires StoreOk(s) && ItemOk(s, i)
  {
    match i
    case ILit(l) => VLit(l)
    case IText(e) => VText(s.blobs[e.id].plain.s)
    case IBytes(e) => VBytes(s.blobs[e.id].plain.b)
    case IRef(_, e) => VObject(Contents(s, e.id))
    case ISub(_, sub) => VObject(View(s, sub))
    case IStray(x) => VStray(x)
  }

  lemma {:induction false} SoundStable(s: Store, s': Store, t: Tracker)
    requires StoreOk(s) && StoreOk(s') && Extends(s, s') && Sound(s, t)
    ensures Sound(s', t) && View(s', t) == View(s, t)
    ensures Synced(s, t) ==> Synced(s', t)
  {
    hide StoreOk, Contents;
    forall k | k in t.items
      ensures ItemOk(s', t.items[k]) && ItemValue(s', t.items[k]) == ItemValue(s, t.items[k])
    {
      ItemStable(s, s', t.items[k]);
    }
  }

  lemma {:induction false} ItemStable(s: Store, s': Store, i: Item)
    requires StoreOk(s) && StoreOk(s') && Extends(s, s') && ItemOk(s, i)
    ensures ItemOk(s', i) && ItemValue(s', i) == ItemValue(s, i)
  {
    hide StoreOk, Contents, View, Sound;
    match i
    case ISub(_, sub) => SoundStable(s, s', sub);
    case IRef(_, e) => ContentsStable(s, s', e.id);
    case _ =>
  }

  /** `fromDownload`. */
  function Downloaded(s: Store, e: EncFile): Tracker
    requires RefersTo(s, e) && s.blobs[e.id].plain.PItems?
  {
    var items := s.blobs[e.id].plain.items;
    Tracker(map k | k in items :: ItemOf(items[k]), Some(e))
  }

  lemma DownloadedIsSound(s: Store, e: EncFile)
    requires StoreOk(s) && RefersTo(s, e) && s.blobs[e.id].plain.PItems?
    ensures Sound(s, Downloaded(s, e)) && Synced(s, Downloaded(s, e))
    ensures View(s, Downloaded(s, e)) == Contents(s, e.id)
  {
    hide StoreOk, ItemOk, ItemValue, StoredOk, Contents;
    var t, items := Downloaded(s, e), s.blobs[e.id].plain.items;
    forall k | k in items
      ensures k != PROTO && ItemOk(s, ItemOf(items[k])) && StoredOf(ItemOf(items[k])) == items[k]
      ensures k in Contents(s, e.id) && Contents(s, e.id)[k] == ItemValue(s, ItemOf(items[k]))
    {
      DownloadedItem(s, e, k);
    }
    assert Serialized(t) == items;
    ContentsKeys(s, e.id);
  }

  lemma DownloadedItem(s: Store, e: EncFile, k: string)
    requires StoreOk(s) && RefersTo(s, e) && s.blobs[e.id].plain.PItems? && k in s.blobs[e.id].plain.items
    ensures var x := s.blobs[e.id].plain.items[k];
      && k != PROTO && ItemOk(s, ItemOf(x)) && StoredOf(ItemOf(x)) == x
      && k in Contents(s, e.id) && Contents(s, e.id)[k] == ItemValue(s, ItemOf(x))
  {
    assert Normal(s.blobs[e.id].plain.items[k]);
  }

  lemma ContentsKeys(s: Store, id: string)
    requires StoreOk(s) && id in s.blobs && s.blobs[id].plain.PItems?
    ensures Contents(s, id).Keys == s.blobs[id].plain.items.Keys
  {
  }

  // ------------------------------------------------------------ the key __proto__

  lemma {:induction false} ContentsHaveNoProto(s: Store, id: string)
    requires StoreOk(s) && id in s.blobs && s.blobs[id].plain.PItems?
    ensures !HasProto(VObject(Contents(s, id)))
    decreases s.order[id]
  {
    var items := s.blobs[id].plain.items;
    forall k | k in items ensures k != PROTO && !HasProto(Contents(s, id)[k]) {
      assert Normal(items[k]);
      if items[k].SObject? {
        assert Older(s, items[k], id);
        ContentsHaveNoProto(s, items[k].e.id);
      }
    }
  }

  /** Whatever was written, no tracker ever stands for a map with the key `__proto__`. */
  lemma {:induction false} ViewHasNoProto(s: Store, t: Tracker)
    requires StoreOk(s) && Sound(s, t)
    ensures !HasProto(VObject(View(s, t)))
  {
    hide StoreOk, Contents;
    forall k | k in t.items ensures !HasProto(ItemValue(s, t.items[k])) {
      match t.items[k]
      case IRef(_, e) => ContentsHaveNoProto(s, e.id);
      case ISub(_, sub) => ViewHasNoProto(s, sub);
      case _ =>
    }
  }

  lemma {:induction false} DecimalDistinct(m: nat, n: nat)
    requires Decimal(m) == Decimal(n)
    ensures m == n
  {
    if m < 10 && n < 10 {
      DigitsDistinct(m, n);
    } else if m >= 10 && n >= 10 {
      var a, b := Decimal(m), Decimal(n);
      assert a[..|a| - 1] == Decimal(m / 10) && b[..|b| - 1] == Decimal(n / 10);
      DecimalDistinct(m / 10, n / 10);
      DigitsDistinct(m % 10, n % 10);
    }
  }

  lemma DigitsDistinct(m: nat, n: nat)
    requires m < 10 && n < 10 && Digit(m) == Digit(n)
    ensures m == n
  {
  }

  lemma EntriesDistinct(v: JsValue, i: nat, j: nat)
    requires EachOnce(v) && i < j < EntryCount(v)
    ensures EntryAt(v, i).k != EntryAt(v, j).k
  {
    if v.JArray? && Decimal(i) == Decimal(j) {
      DecimalDistinct(i, j);
    }
  }

  lemma {:induction false} MeaningAt(v: JsValue, n: nat, i: nat)
    requires EachOnce(v) && i < n <= EntryCount(v)
    ensures var e := EntryAt(v, i); e.k in MeaningOf(v, n) && MeaningOf(v, n)[e.k] == Meaning(e.v)
    decreases n
  {
    hide Meaning;
    if i == n - 1 {
    } else {
      MeaningAt(v, n - 1, i);
      EntriesDistinct(v, i, n - 1);
    }
  }

  /** One of the first `n` entries has the name. */
  predicate HasEntry(v: JsValue, n: nat, k: string)
    requires n <= EntryCount(v)
  {
    exists i :: 0 <= i < n && EntryAt(v, i).k == k
  }

  lemma OneMoreEntry(v: JsValue, n: nat, k: string)
    requires 0 < n <= EntryCount(v)
    ensures HasEntry(v, n, k) <==> HasEntry(v, n - 1, k) || EntryAt(v, n - 1).k == k
  {
    hide EntryAt;
  }

  lemma {:induction false} MeaningKeys(v: JsValue, n: nat, k: string)
    requires n <= EntryCount(v)
    ensures k in MeaningOf(v, n) <==> HasEntry(v, n, k)
    decreases n
  {
    hide Meaning, EntryAt;
    if n == 0 {
    } else {
      hide HasEntry;
      MeaningKeys(v, n - 1, k);
      OneMoreEntry(v, n, k);
    }
  }

  /** An array reads back as an object that has element `i` under the decimal text of `i`,
      and nothing else. */
  lemma ArrayMeaning(vs: seq<JsValue>)
    requires vs != []
    ensures var m := Meaning(JArray(vs));
      && m.VObject?
      && (forall i :: 0 <= i < |vs| ==> Decimal(i) in m.items && m.items[Decimal(i)] == Meaning(vs[i]))
      && forall k :: k in m.items ==> exists i :: 0 <= i < |vs| && Decimal(i) == k
  {
    hide Decimal, MeaningOf;
    var v := JArray(vs);
    assert Meaning(v) == VObject(MeaningOf(v, |vs|));
    assert forall i :: 0 <= i < |vs| ==> EntryAt(v, i) == Entry(Decimal(i), vs[i]);
    forall i | 0 <= i < |vs|
      ensures Decimal(i) in MeaningOf(v, |vs|) && MeaningOf(v, |vs|)[Decimal(i)] == Meaning(vs[i])
    {
      MeaningAt(v, |vs|, i);
    }
    forall k | k in MeaningOf(v, |vs|) ensures exists i :: 0 <= i < |vs| && Decimal(i) == k {
      MeaningKeys(v, |vs|, k);
      var i :| 0 <= i < |vs| && EntryAt(v, i).k == k;
      assert Decimal(i) == k;
    }
  }

  /** An object reads back with its entries, and nothing else. */
  lemma ObjectMeaning(es: seq<Entry>)
    requires es != [] && EachOnce(JObject(es))
    ensures var m := Meaning(JObject(es));
      && m.VObject?
      && (forall i :: 0 <= i < |es| ==> es[i].k in m.items && m.items[es[i].k] == Meaning(es[i].v))
      && forall k :: k in m.items ==> exists i :: 0 <= i < |es| && es[i].k == k
  {
    hide MeaningOf;
    var v := JObject(es);
    assert Meaning(v) == VObject(MeaningOf(v, |es|));
    assert forall i :: 0 <= i < |es| ==> EntryAt(v, i) == es[i];
    forall i | 0 <= i < |es|
      ensures es[i].k in MeaningOf(v, |es|) && MeaningOf(v, |es|)[es[i].k] == Meaning(es[i].v)
    {
      MeaningAt(v, |es|, i);
    }
    forall k | k in MeaningOf(v, |es|) ensures exists i :: 0 <= i < |es| && es[i].k == k {
      MeaningKeys(v, |es|, k);
      var i :| 0 <= i < |es| && EntryAt(v, i).k == k;
      assert es[i].k == k;
    }
  }

  /** All other values read back as themselves, but an empty Buffer, object or array is kept
      as a literal. */
  lemma ScalarMeaning(v: JsValue)
    ensures v.JLit? ==> Meaning(v) == VLit(v.l)
    ensures v.JText? ==> Meaning(v) == VText(v.s)
    ensures v.JBytes? ==> Meaning(v) == if v.b == [] then VLit(LEmptyBuffer) else VBytes(v.b)
    ensures Meaning(JObject([])) == VLit(LEmptyObject) && Meaning(JArray([])) == VLit(LEmptyArray)
  {
  }

  /** The number that a text of digits stands for. */
  function NumberOf(s: string): nat {
    if s == "" then 0
    else NumberOf(s[..|s| - 1]) * 10 + if '0' <= s[|s| - 1] <= '9' then s[|s| - 1] as nat - '0' as nat else 0
  }

  lemma {:induction false} DecimalIsNumber(n: nat)
    ensures var s := Decimal(n);
      && s != "" && NumberOf(s) == n && (n > 0 ==> s[0] != '0')
      && forall i :: 0 <= i < |s| ==> '0' <= s[i] <= '9'
  {
    if n < 10 {
      assert Decimal(n)[..0] == "";
    } else {
      DecimalIsNumber(n / 10);
      var s := Decimal(n);
      assert s[..|s| - 1] == Decimal(n / 10) && s[|s| - 1] == Digit(n % 10);
    }
  }

  /** An entry named `__proto__` is one of the value's meaning. */
  lemma {:induction false} MeaningHasProto(v: JsValue)
    requires Proper(v) && !NoProto(v)
    ensures HasProto(Meaning(v))
  {
    var i :| 0 <= i < EntryCount(v) && !(EntryAt(v, i).k != PROTO && NoProto(EntryAt(v, i).v));
    var e := EntryAt(v, i);
    MeaningAt(v, EntryCount(v), i);
    if e.k != PROTO {
      MeaningHasProto(e.v);
    }
    assert Meaning(v) == VObject(MeaningOf(v, EntryCount(v)));
  }

  lemma {:induction false} MeaningIsReadable(v: JsValue)
    ensures Readable(Meaning(v))
    decreases v, 1, 0
  {
    hide MeaningOf;
    EntriesAreReadable(v, EntryCount(v));
  }

  lemma {:induction false} EntriesAreReadable(v: JsValue, n: nat)
    requires n <= EntryCount(v)
    ensures Readable(VObject(MeaningOf(v, n)))
    decreases v, 0, n
  {
    hide Meaning;
    if n == 0 {
    } else {
      EntriesAreReadable(v, n - 1);
      MeaningIsReadable(EntryAt(v, n - 1).v);
    }
  }
}
