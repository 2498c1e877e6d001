/** The cookie strings of `src/util/cookieString.ts`, in which the Solana name service keeps
    an identity's data: parsing, encoding and merging. */
module CookieString {
  datatype Entry = Entry(key: string, value: string)

  /** White space, as `trim` knows it. */
  predicate IsSpace(c: char) {
    var n := c as int;
    || 9 <= n <= 13 || n == 32 || n == 0xA0 || n == 0x1680 || 0x2000 <= n <= 0x200A
    || n == 0x2028 || n == 0x2029 || n == 0x202F || n == 0x205F || n == 0x3000 || n == 0xFEFF
  }

  function TrimLeft(s: string): (r: string)
    ensures |r| <= |s| && r == s[|s| - |r|..]
    ensures r == "" || !IsSpace(r[0])
  {
    if s != "" && IsSpace(s[0]) then TrimLeft(s[1..]) else s
  }

  function TrimRight(s: string): (r: string)
    ensures |r| <= |s| && r == s[..|r|]
    ensures r == "" || !IsSpace(r[|r| - 1])
  {
    if s != "" && IsSpace(s[|s| - 1]) then TrimRight(s[..|s| - 1]) else s
  }

  function Trim(s: string): string {
    TrimRight(TrimLeft(s))
  }

  predicate IsTrimmed(s: string) {
    s != "" ==> !IsSpace(s[0]) && !IsSpace(s[|s| - 1])
  }

  /** `split` on one character. */
  function Split(s: string, c: char): (r: seq<string>)
    ensures r != []
  {
    if s == "" then [""]
    else
      var r, last := Split(s[..|s| - 1], c), s[|s| - 1];
      if last == c then r + [""] else r[..|r| - 1] + [r[|r| - 1] + [last]]
  }

  // ---------------------------------------------------------------------- the codec

  /** One pair of a cookie string. Assigning to `__proto__` makes no property. */
  function Assign(m: map<string, string>, pair: string): map<string, string> {
    var kv := Split(pair, '=');
    if |kv| != 2 then m
    else
      var k, v := Trim(kv[0]), Trim(kv[1]);
      if k != "" && v != "" && k != "__proto__" then m[k := v] else m
  }

  function AssignAll(pairs: seq<string>): map<string, string> {
    if pairs == [] then map[] else Assign(AssignAll(pairs[..|pairs| - 1]), pairs[|pairs| - 1])
  }

  function Parse(s: string): map<string, string> {
    AssignAll(Split(s, ';'))
  }

  function Pair(e: Entry): string {
    e.key + "=" + e.value
  }

  function Terminated(entries: seq<Entry>): string {
    if entries == [] then "" else Terminated(entries[..|entries| - 1]) + Pair(entries[|entries| - 1]) + ";"
  }

  function WithoutLastSemicolon(s: string): string {
    if s != "" && s[|s| - 1] == ';' then s[..|s| - 1] else s
  }

  function Encode(entries: seq<Entry>): string {
    WithoutLastSemicolon(Terminated(entries))
  }

  /** `parseCookieString`. */
  method ParseCookieString(s: string) returns (m: map<string, string>)
    ensures m == Parse(s)
  {
    hide Split, Trim;
    var pairs := Split(s, ';');
    m := map[];
    for i := 0 to |pairs|
      invariant m == AssignAll(pairs[..i])
    {
      assert pairs[..i + 1][..i] == pairs[..i];
      var keyvalue := Split(pairs[i], '=');
      if |keyvalue| == 2 {
        var k, v := Trim(keyvalue[0]), Trim(keyvalue[1]);
        if k != "" && v != "" && k != "__proto__" {
          m := m[k := v];
        }
      }
    }
    assert pairs[..|pairs|] == pairs;
  }

  /** `encodeCookieString`, for the entries in any order. */
  method EncodeCookieString(entries: seq<Entry>) returns (s: string)
    ensures s == Encode(entries)
  {
    s := "";
    for i := 0 to |entries|
      invariant s == Terminated(entries[..i])
    {
      assert entries[..i + 1][..i] == entries[..i];
      s := s + (entries[i].key + "=" + entries[i].value + ";");
      assert s == Terminated(entries[..i]) + Pair(entries[i]) + ";";
    }
    assert entries[..|entries|] == entries;
    s := WithoutLastSemicolon(s);
  }

  // ---------------------------------------------------------------------- normal form

  /** What can stand for a key or a value: neither separator, and nothing to trim. */
  predicate IsToken(s: string) {
    s != "" && ';' !in s && '=' !in s && IsTrimmed(s)
  }

  predicate IsGood(k: string, v: string) {
    IsToken(k) && k != "__proto__" && IsToken(v)
  }

  predicate AreGood(m: map<string, string>) {
    forall k :: k in m ==> IsGood(k, m[k])
  }

  /** The entries of an object, each key once, in whatever order the object lists them. */
  ghost predicate Lists(entries: seq<Entry>, m: map<string, string>) {
    && (forall i :: 0 <= i < |entries| ==> entries[i].key in m && m[entries[i].key] == entries[i].value)
    && (forall k :: k in m ==> exists i :: 0 <= i < |entries| && entries[i].key == k)
    && (forall i, j :: 0 <= i < j < |entries| ==> entries[i].key != entries[j].key)
  }

  lemma {:induction false} SplitParts(s: string, c: char)
    ensures forall p :: p in Split(s, c) ==> c !in p && forall x :: x in p ==> x in s
  {
    if s == "" {
    } else {
      var front := s[..|s| - 1];
      var r := Split(front, c);
      SplitParts(front, c);
      assert r[|r| - 1] in r;
      assert forall x :: x in front ==> x in s;
      assert s[|s| - 1] in s;
    }
  }

  lemma {:induction false} SplitOne(w: string, c: char)
    requires c !in w
    ensures Split(w, c) == [w]
  {
    if w == "" {
    } else {
      SplitOne(w[..|w| - 1], c);
      assert w[..|w| - 1] + [w[|w| - 1]] == w;
    }
  }

  /** A separator and a piece without one, at the end. */
  lemma {:induction false} SplitLast(a: string, w: string, c: char)
    requires c !in w
    ensures Split(a + [c] + w, c) == Split(a, c) + [w]
  {
    var s := a + [c] + w;
    if w == "" {
      assert s[..|s| - 1] == a;
    } else {
      var front := w[..|w| - 1];
      assert s[..|s| - 1] == a + [c] + front;
      SplitLast(a, front, c);
      assert s[|s| - 1] == w[|w| - 1] && w == front + [w[|w| - 1]];
      assert w[|w| - 1] in w;
    }
  }

  lemma TrimOfTrimmed(s: string)
    requires IsTrimmed(s)
    ensures Trim(s) == s
  {
  }

  lemma TrimIsTrimmed(s: string)
    ensures IsTrimmed(Trim(s)) && forall x :: x in Trim(s) ==> x in s
  {
  }

  /** Only what could be written again is ever read. */
  lemma AssignKeepsGood(m: map<string, string>, pair: string)
    requires AreGood(m) && ';' !in pair
    ensures AreGood(Assign(m, pair))
  {
    hide Trim, Split;
    var kv := Split(pair, '=');
    SplitParts(pair, '=');
    if |kv| == 2 {
      TrimIsTrimmed(kv[0]);
      TrimIsTrimmed(kv[1]);
      assert kv[0] in kv && kv[1] in kv;
    }
  }

  lemma {:induction false} AssignAllGood(pairs: seq<string>)
    requires forall p :: p in pairs ==> ';' !in p
    ensures AreGood(AssignAll(pairs))
  {
    hide Assign;
    if pairs == [] {
    } else {
      AssignAllGood(pairs[..|pairs| - 1]);
      AssignKeepsGood(AssignAll(pairs[..|pairs| - 1]), pairs[|pairs| - 1]);
    }
  }

  lemma ParseIsGood(s: string)
    ensures AreGood(Parse(s))
  {
    hide Split, AssignAll;
    SplitParts(s, ';');
    AssignAllGood(Split(s, ';'));
  }

  lemma AssignPair(m: map<string, string>, e: Entry)
    requires IsGood(e.key, e.value)
    ensures Assign(m, Pair(e)) == m[e.key := e.value] && ';' !in Pair(e)
  {
    hide Trim, Split;
    assert Pair(e) == e.key + ['='] + e.value;
    SplitOne(e.key, '=');
    SplitLast(e.key, e.value, '=');
    TrimOfTrimmed(e.key);
    TrimOfTrimmed(e.value);
  }

  predicate GoodEntries(entries: seq<Entry>) {
    forall i :: 0 <= i < |entries| ==> IsGood(entries[i].key, entries[i].value)
  }

  function Collected(entries: seq<Entry>): map<string, string> {
    if entries == [] then map[]
    else Collected(entries[..|entries| - 1])[entries[|entries| - 1].key := entries[|entries| - 1].value]
  }

  lemma TerminatedEnds(entries: seq<Entry>)
    ensures entries != [] ==> Terminated(entries) == Encode(entries) + ";"
    ensures entries == [] ==> Encode(entries) == ""
  {
  }

  lemma EncodeStep(entries: seq<Entry>)
    requires entries != []
    ensures var front, last := entries[..|entries| - 1], Pair(entries[|entries| - 1]);
      Encode(entries) == if front == [] then last else Encode(front) + [';'] + last
  {
    hide Pair;
    var front, last := entries[..|entries| - 1], Pair(entries[|entries| - 1]);
    TerminatedEnds(front);
    assert Terminated(entries) == Terminated(front) + last + ";";
    assert (Terminated(front) + last + ";")[..|Terminated(front) + last|] == Terminated(front) + last;
    assert "" + last == last;
  }

  /** Encoded entries are read back one by one. */
  lemma {:induction false} ParseEncoded(entries: seq<Entry>)
    requires GoodEntries(entries)
    ensures Parse(Encode(entries)) == Collected(entries)
  {
    hide Split, Assign, Pair, Encode;
    if entries == [] {
      TerminatedEnds(entries);
      NothingParsed();
    } else {
      var front, e := entries[..|entries| - 1], entries[|entries| - 1];
      EncodeStep(entries);
      ParseEncoded(front);
      AssignPair(Collected(front), e);
      if front == [] {
        SplitOne(Pair(e), ';');
        assert [Pair(e)][..0] == [] && AssignAll([]) == map[];
        assert AssignAll([Pair(e)]) == Assign(map[], Pair(e));
      } else {
        SplitLast(Encode(front), Pair(e), ';');
        var pieces := Split(Encode(front), ';');
        assert (pieces + [Pair(e)])[..|pieces|] == pieces;
      }
    }
  }

  lemma NothingParsed()
    ensures Parse("") == map[]
  {
  }

  lemma {:induction false} CollectedAt(entries: seq<Entry>)
    requires forall i, j :: 0 <= i < j < |entries| ==> entries[i].key != entries[j].key
    ensures forall i :: 0 <= i < |entries| ==>
      entries[i].key in Collected(entries) && Collected(entries)[entries[i].key] == entries[i].value
    ensures forall k :: k in Collected(entries) ==> exists i :: 0 <= i < |entries| && entries[i].key == k
  {
    if entries == [] {
    } else {
      var front := entries[..|entries| - 1];
      CollectedAt(front);
      forall k | k in Collected(entries) ensures exists i :: 0 <= i < |entries| && entries[i].key == k {
        if k != entries[|entries| - 1].key {
          assert k in Collected(front);
          var i :| 0 <= i < |front| && front[i].key == k;
          assert entries[i].key == k;
        }
      }
    }
  }

  lemma ListsCollected(entries: seq<Entry>, m: map<string, string>)
    requires Lists(entries, m)
    ensures Collected(entries) == m
  {
    hide Collected;
    CollectedAt(entries);
  }

  /** An object survives being encoded, in whatever order its entries are listed, exactly if
      its keys and values are tokens. */
  lemma EncodedObjectSurvivesIff(entries: seq<Entry>, m: map<string, string>)
    requires Lists(entries, m)
    ensures Parse(Encode(entries)) == m <==> AreGood(m)
  {
    hide Parse, Encode, Collected;
    ParseIsGood(Encode(entries));
    if AreGood(m) {
      ParseEncoded(entries);
      ListsCollected(entries, m);
    }
  }

  /** Normal form: for every string, encoding what was parsed and parsing again changes
      nothing. */
  lemma ParsedStringsAreNormal(s: string, entries: seq<Entry>)
    requires Lists(entries, Parse(s))
    ensures Parse(Encode(entries)) == Parse(s)
  {
    hide Parse, Encode;
    ParseIsGood(s);
    EncodedObjectSurvivesIff(entries, Parse(s));
  }

  // ---------------------------------------------------------------------- merging

  predicate Has(obj: map<string, string>, k: string) {
    k in obj && obj[k] != ""
  }

  /** `mergeAndResolveConflicts`. */
  function Merge(cookie: string, obj: map<string, string>): map<string, string> {
    var prev := Parse(cookie);
    var kept :=
      if Has(obj, "pn_alias") then prev - {"pn_root", "pn_routes"}
      else if Has(obj, "pn_root") then prev - {"pn_alias"}
      else prev;
    kept + obj
  }

  method MergeAndResolveConflicts(cookie: string, obj: map<string, string>) returns (merged: map<string, string>)
    ensures merged == Merge(cookie, obj)
  {
    var prevData := ParseCookieString(cookie);
    if Has(obj, "pn_alias") {
      prevData := prevData - {"pn_root"};
      prevData := prevData - {"pn_routes"};
    } else if Has(obj, "pn_root") {
      prevData := prevData - {"pn_alias"};
    }
    merged := prevData + obj;
  }

  /** Storing a key in a cookie string: all other keys keep their values, and what is written
      reads back as that, exactly if the new key is a token. */
  lemma StoringAKeyKeepsTheOthers(cookie: string, key: string, entries: seq<Entry>)
    requires Lists(entries, Merge(cookie, map["pn_key" := key]))
    ensures var merged := Merge(cookie, map["pn_key" := key]);
      && "pn_key" in merged && merged["pn_key"] == key
      && (forall k :: k != "pn_key" ==> (k in merged <==> k in Parse(cookie)))
      && (forall k :: k in Parse(cookie) && k != "pn_key" ==> merged[k] == Parse(cookie)[k])
      && (Parse(Encode(entries)) == merged <==> IsToken(key))
  {
    hide Parse, Encode, Lists;
    ParseIsGood(cookie);
    var merged := Merge(cookie, map["pn_key" := key]);
    EncodedObjectSurvivesIff(entries, merged);
    assert IsToken("pn_key") && "pn_key" in merged;
  }

  /** An alias stands against a root or routes; an empty value is none. */
  predicate Conflicting(m: map<string, string>) {
    Has(m, "pn_alias") && (Has(m, "pn_root") || Has(m, "pn_routes"))
  }

  /** Merging keeps data free of conflicts, except that new routes leave an old alias in
      place unless a root or an alias, even an empty one, comes with them. */
  lemma MergeConflictsIff(cookie: string, obj: map<string, string>)
    requires !Conflicting(Parse(cookie)) && !Conflicting(obj)
    ensures Conflicting(Merge(cookie, obj)) <==>
      Has(Parse(cookie), "pn_alias") && "pn_alias" !in obj && Has(obj, "pn_routes") && !Has(obj, "pn_root")
  {
  }

  /** Routes that are stored with an alias in place stand against it. */
  lemma RoutesAgainstAlias()
    ensures var merged := Merge("pn_alias=a", map["pn_routes" := "r"]);
      merged == map["pn_alias" := "a", "pn_routes" := "r"] && Conflicting(merged)
  {
    hide Parse, Encode, AreGood;
    var entries := [Entry("pn_alias", "a")];
    AliasAlone();
    assert entries[0].key == "pn_alias";
    EncodedObjectSurvivesIff(entries, map["pn_alias" := "a"]);
  }

  lemma AliasAlone()
    ensures Encode([Entry("pn_alias", "a")]) == "pn_alias=a" && AreGood(map["pn_alias" := "a"])
  {
    assert [Entry("pn_alias", "a")][..0] == [];
    assert IsToken("pn_alias") && IsToken("a");
  }
}
