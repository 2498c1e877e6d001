/** What the cookie strings of `src/util/cookieString.ts` are read as, character by character:
    which white space is cut, where the parts are split, which pairs count. */
module CookieLaws {
  import opened CookieString

  // ---------------------------------------------------------------------- trimming

  ghost predicate AllSpace(s: string) {
    forall i :: 0 <= i < |s| ==> IsSpace(s[i])
  }

  lemma Spaces(c: char)
    ensures IsSpace(c) <==>
      c in "\t\n\U{0B}\U{0C}\r \U{A0}\U{1680}\U{2028}\U{2029}\U{202F}\U{205F}\U{3000}\U{FEFF}"
      || '\U{2000}' <= c <= '\U{200A}'
  {
  }

  lemma {:induction false} LeftCut(s: string)
    ensures forall i :: 0 <= i < |s| - |TrimLeft(s)| ==> IsSpace(s[i])
  {
    hide IsSpace;
    if s != "" && IsSpace(s[0]) {
      LeftCut(s[1..]);
      assert forall i :: 1 <= i < |s| - |TrimLeft(s)| ==> s[i] == s[1..][i - 1];
    }
  }

  lemma {:induction false} RightCut(s: string) returns (b: string)
    ensures s == TrimRight(s) + b && AllSpace(b)
  {
    hide IsSpace;
    if s != "" && IsSpace(s[|s| - 1]) {
      var a := RightCut(s[..|s| - 1]);
      b := a + [s[|s| - 1]];
      assert s == s[..|s| - 1] + [s[|s| - 1]];
    } else {
      b := "";
      assert s == s + "";
    }
  }

  /** Trimming cuts white space at both ends and no more. */
  lemma TrimCutsSpace(s: string) returns (a: string, b: string)
    ensures s == a + Trim(s) + b && AllSpace(a) && AllSpace(b) && IsTrimmed(Trim(s))
  {
    hide IsSpace, TrimLeft, TrimRight;
    LeftCut(s);
    a := s[..|s| - |TrimLeft(s)|];
    b := RightCut(TrimLeft(s));
    assert s == a + (Trim(s) + b);
    TrimIsTrimmed(s);
  }

  lemma {:induction false} LeftFinds(a: string, w: string)
    requires AllSpace(a) && (w == "" || !IsSpace(w[0]))
    ensures TrimLeft(a + w) == w
  {
    hide IsSpace;
    if a == "" {
      assert a + w == w;
    } else {
      assert (a + w)[1..] == a[1..] + w;
      LeftFinds(a[1..], w);
    }
  }

  lemma {:induction false} RightFinds(w: string, b: string)
    requires AllSpace(b) && (w == "" || !IsSpace(w[|w| - 1]))
    ensures TrimRight(w + b) == w
  {
    hide IsSpace;
    if b == "" {
      assert w + b == w;
    } else {
      assert (w + b)[..|w + b| - 1] == w + b[..|b| - 1];
      RightFinds(w, b[..|b| - 1]);
    }
  }

  /** It finds what stands between white space. */
  lemma TrimFinds(a: string, w: string, b: string)
    requires AllSpace(a) && AllSpace(b) && w != "" && IsTrimmed(w)
    ensures Trim(a + w + b) == w
  {
    hide IsSpace, TrimLeft, TrimRight;
    assert a + w + b == a + (w + b);
    LeftFinds(a, w + b);
    RightFinds(w, b);
  }

  /** White space alone is cut to nothing. */
  lemma TrimOfSpace(s: string)
    requires AllSpace(s)
    ensures Trim(s) == ""
  {
    LeftFinds(s, "");
    assert s + "" == s;
  }

  // ---------------------------------------------------------------------- splitting

  function Join(parts: seq<string>, c: char): string {
    if parts == [] then ""
    else if |parts| == 1 then parts[0]
    else Join(parts[..|parts| - 1], c) + [c] + parts[|parts| - 1]
  }

  lemma JoinGrows(parts: seq<string>, c: char, w: string, x: char)
    ensures parts != [] ==> Join(parts + [w], c) == Join(parts, c) + [c] + w
    ensures Join(parts + [w + [x]], c) == Join(parts + [w], c) + [x]
  {
    assert (parts + [w])[..|parts|] == parts && (parts + [w + [x]])[..|parts|] == parts;
  }

  /** Joined again, the parts give the string, and no part holds the separator. */
  lemma {:induction false} JoinOfSplit(s: string, c: char)
    ensures Join(Split(s, c), c) == s
    ensures forall p :: p in Split(s, c) ==> c !in p
  {
    SplitParts(s, c);
    if s == "" {
    } else {
      var front, last := s[..|s| - 1], s[|s| - 1];
      var r := Split(front, c);
      JoinOfSplit(front, c);
      assert r == r[..|r| - 1] + [r[|r| - 1]];
      if last == c {
        JoinGrows(r, c, "", last);
        assert Join(r, c) + [c] + "" == s;
      } else {
        JoinGrows(r[..|r| - 1], c, r[|r| - 1], last);
      }
    }
  }

  lemma SplitGrows(s: string, x: char, c: char)
    ensures var r := Split(s, c);
      Split(s + [x], c) == if x == c then r + [""] else r[..|r| - 1] + [r[|r| - 1] + [x]]
  {
    assert (s + [x])[..|s|] == s;
  }

  /** At a separator, the parts are those on its two sides. */
  lemma {:induction false} SplitCuts(a: string, b: string, c: char)
    ensures Split(a + [c] + b, c) == Split(a, c) + Split(b, c)
  {
    hide Split;
    if b == "" {
      SplitGrows(a, c, c);
      SplitOne("", c);
      assert a + [c] + b == a + [c];
    } else {
      var front, x := b[..|b| - 1], b[|b| - 1];
      assert b == front + [x] && a + [c] + b == (a + [c] + front) + [x];
      SplitCuts(a, front, c);
      SplitGrows(front, x, c);
      SplitGrows(a + [c] + front, x, c);
      AtTheEnd(Split(a, c), Split(front, c), x);
    }
  }

  lemma AtTheEnd(p: seq<string>, q: seq<string>, x: char)
    requires q != []
    ensures p + q + [""] == p + (q + [""])
    ensures (p + q)[..|p + q| - 1] + [(p + q)[|p + q| - 1] + [x]] == p + (q[..|q| - 1] + [q[|q| - 1] + [x]])
  {
  }

  // ---------------------------------------------------------------------- pairs

  /** A pair is the last that is read: the parts before it are read on their own. */
  lemma LastPair(s: string, pair: string)
    requires ';' !in pair
    ensures Parse(s + ";" + pair) == Assign(Parse(s), pair)
    ensures Parse(pair) == Assign(map[], pair)
  {
    hide Assign;
    SplitLast(s, pair, ';');
    SplitOne(pair, ';');
    var pairs := Split(s, ';');
    assert (pairs + [pair])[..|pairs|] == pairs;
    assert [pair][..0] == [] && AssignAll([]) == map[];
  }

  /** A key and a value, with white space around each: the value is set, whatever the key had
      before. Nothing else is changed, and a first pair needs no semicolon. */
  lemma PairIsRead(s: string, a: string, key: string, b: string, d: string, value: string, e: string)
    requires AllSpace(a) && AllSpace(b) && AllSpace(d) && AllSpace(e)
    requires IsToken(key) && key != "__proto__" && IsToken(value)
    ensures var pair := a + key + b + "=" + d + value + e;
      Parse(s + ";" + pair) == Parse(s)[key := value] && Parse(pair) == map[key := value]
  {
    hide Parse, Trim, Split, IsSpace;
    var k, v := a + key + b, d + value + e;
    var pair := a + key + b + "=" + d + value + e;
    assert pair == k + ['='] + v;
    NoSeparators(a, key, b);
    NoSeparators(d, value, e);
    LastPair(s, pair);
    SplitOne(k, '=');
    SplitLast(k, v, '=');
    TrimFinds(a, key, b);
    TrimFinds(d, value, e);
  }

  lemma NoSeparators(a: string, w: string, b: string)
    requires AllSpace(a) && AllSpace(b) && IsToken(w)
    ensures '=' !in a + w + b && ';' !in a + w + b
  {
  }

  /** The pairs that are not read. */
  ghost predicate IsNoPair(pair: string) {
    || '=' !in pair
    || (exists p, q, r :: pair == p + "=" + q + "=" + r)
    || (exists p, q :: pair == p + "=" + q && '=' !in p && '=' !in q
                       && (AllSpace(p) || AllSpace(q) || Trim(p) == "__proto__"))
  }

  /** A part without a key and a value, or with more than these, changes nothing. */
  lemma OtherPartsAreIgnored(s: string, pair: string)
    requires ';' !in pair && IsNoPair(pair)
    ensures Parse(s + ";" + pair) == Parse(s) && Parse(pair) == map[]
  {
    hide Parse, Trim, Split, IsSpace;
    LastPair(s, pair);
    if '=' !in pair {
      SplitOne(pair, '=');
    } else if p, q, r :| pair == p + "=" + q + "=" + r {
      ThreeParts(p, q, r);
    } else {
      var p, q :| pair == p + "=" + q && '=' !in p && '=' !in q
                  && (AllSpace(p) || AllSpace(q) || Trim(p) == "__proto__");
      SplitOne(p, '=');
      SplitLast(p, q, '=');
      if AllSpace(p) {
        TrimOfSpace(p);
      }
      if AllSpace(q) {
        TrimOfSpace(q);
      }
    }
  }

  lemma ThreeParts(p: string, q: string, r: string)
    ensures |Split(p + "=" + q + "=" + r, '=')| > 2
  {
    hide Split;
    SplitCuts(p + "=" + q, r, '=');
    SplitCuts(p, q, '=');
  }

  /** What is written: keys and values, separated, with no semicolon at the end. */
  lemma EncodedText(entries: seq<Entry>, e: Entry)
    ensures Encode([]) == ""
    ensures entries == [] ==> Encode([e]) == e.key + "=" + e.value
    ensures entries != [] ==> Encode(entries + [e]) == Encode(entries) + ";" + (e.key + "=" + e.value)
  {
    hide Encode;
    TerminatedEnds([]);
    EncodeStep(entries + [e]);
    assert (entries + [e])[..|entries|] == entries;
    assert entries == [] ==> entries + [e] == [e];
  }

  lemma SpacedPairs()
    ensures Parse("a = 1; b=2") == map["a" := "1", "b" := "2"]
  {
    hide Parse;
    assert AllSpace(" ") && AllSpace("") && IsToken("a") && IsToken("b") && IsToken("1") && IsToken("2");
    PairIsRead("", "", "a", " ", " ", "1", "");
    assert "" + "a" + " " + "=" + " " + "1" + "" == "a = 1";
    PairIsRead("a = 1", " ", "b", "", "", "2", "");
    assert "a = 1" + ";" + (" " + "b" + "" + "=" + "" + "2" + "") == "a = 1; b=2";
  }

  // ---------------------------------------------------------------------- merging

  /** The key is ruled out by what is merged: a root and routes by an alias, and an alias by a
      root that comes without one. */
  predicate IsRuledOut(obj: map<string, string>, k: string) {
    if "pn_alias" in obj && obj["pn_alias"] != "" then k == "pn_root" || k == "pn_routes"
    else "pn_root" in obj && obj["pn_root"] != "" && k == "pn_alias"
  }

  /** New values win, and an old one stays unless its key is ruled out. */
  lemma MergedValue(cookie: string, obj: map<string, string>, k: string)
    ensures k in obj ==> k in Merge(cookie, obj) && Merge(cookie, obj)[k] == obj[k]
    ensures k !in obj ==> (k in Merge(cookie, obj) <==> k in Parse(cookie) && !IsRuledOut(obj, k))
    ensures k !in obj && k in Merge(cookie, obj) ==> Merge(cookie, obj)[k] == Parse(cookie)[k]
  {
  }
}
