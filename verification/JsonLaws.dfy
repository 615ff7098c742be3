/** Why the canonical text identifies a payload: what is printed can be read back, and sorting the members
    removes exactly the order of the members. */
module JsonLaws {
  import opened Json
  import opened JsonReader
  import opened Text

  // ---------------------------------------------------------------- printing is unambiguous

  lemma SamePrefix(p: string, q: string, x: string, y: string)
    requires p + x == q + y && |p| == |q|
    ensures p == q && x == y
  {
    assert p == (p + x)[..|p|] && q == (q + y)[..|q|];
    assert x == (p + x)[|p|..] && y == (q + y)[|q|..];
  }

  /** The escapes of two characters can only start the same text when the characters are equal. */
  lemma EscapeCharPrefixFree(c: char, d: char, x: string, y: string)
    requires EscapeChar(c) + x == EscapeChar(d) + y
    ensures c == d && x == y
  {
    var s, t := EscapeChar(c) + x, EscapeChar(d) + y;
    assert s[0] == EscapeChar(c)[0] && t[0] == EscapeChar(d)[0];
    if s[0] == '\\' {
      assert s[1] == EscapeChar(c)[1] && t[1] == EscapeChar(d)[1];
      if s[1] == 'u' {
        assert s[4] == EscapeChar(c)[4] && s[5] == EscapeChar(c)[5];
        assert t[4] == EscapeChar(d)[4] && t[5] == EscapeChar(d)[5];
      }
    }
    assert c == d;
    SamePrefix(EscapeChar(c), EscapeChar(d), x, y);
  }

  /** Two printed values that start the same text are the same value, and end at the same place. */
  lemma PrintUnambiguous(a: Value, b: Value, x: string, y: string)
    requires PrintThen(a, x) == PrintThen(b, y) && Delimited(x) && Delimited(y)
    ensures a == b && x == y
  {
    PrintReadsBack(a, x);
    PrintReadsBack(b, y);
  }

  lemma PrintInjective(a: Value, b: Value)
    requires PrintThen(a, "") == PrintThen(b, "")
    ensures a == b
  {
    PrintUnambiguous(a, b, "", "");
  }

  // ---------------------------------------------------------------- sorting forgets the order and nothing else

  ghost predicate Sorted(ms: seq<Member>) {
    forall i, j :: 0 <= i < j < |ms| ==> Before(ms[i].key, ms[j].key)
  }

  ghost predicate NoKey(ms: seq<Member>, key: string) {
    forall i :: 0 <= i < |ms| ==> ms[i].key != key
  }

  lemma {:induction false} InsertKeepsMembers(m: Member, ms: seq<Member>)
    ensures multiset(Insert(m, ms)) == multiset(ms) + multiset{m}
  {
    if ms != [] && Before(ms[0].key, m.key) {
      InsertKeepsMembers(m, ms[1..]);
    }
    assert ms != [] ==> ms == [ms[0]] + ms[1..];
  }

  lemma {:induction false} InsertSorted(m: Member, ms: seq<Member>)
    requires Sorted(ms) && NoKey(ms, m.key)
    ensures Sorted(Insert(m, ms))
  {
    if ms == [] {
    } else if Before(ms[0].key, m.key) {
      InsertSorted(m, ms[1..]);
      InsertKeepsMembers(m, ms[1..]);
      var r := Insert(m, ms[1..]);
      forall j | 0 <= j < |r| ensures Before(ms[0].key, r[j].key) {
        assert r[j] in multiset(r);
        assert r[j] == m || r[j] in ms[1..];
      }
    } else {
      BeforeTotal(m.key, ms[0].key);
      forall j | 0 < j < |ms| ensures Before(m.key, ms[j].key) {
        BeforeTransitive(m.key, ms[0].key, ms[j].key);
      }
    }
  }

  lemma {:induction false} SortKeepsMembers(ms: seq<Member>)
    ensures multiset(SortMembers(ms)) == multiset(ms)
  {
    if ms != [] {
      SortKeepsMembers(ms[1..]);
      InsertKeepsMembers(ms[0], SortMembers(ms[1..]));
      assert ms == [ms[0]] + ms[1..];
    }
  }

  lemma SortHasSameMembers(ms: seq<Member>, m: Member)
    ensures m in SortMembers(ms) <==> m in ms
  {
    SortKeepsMembers(ms);
    assert m in SortMembers(ms) <==> m in multiset(SortMembers(ms));
  }

  lemma {:induction false} SortSorts(ms: seq<Member>)
    requires DistinctKeys(ms)
    ensures Sorted(SortMembers(ms))
  {
    if ms != [] {
      SortSorts(ms[1..]);
      var r := SortMembers(ms[1..]);
      forall i | 0 <= i < |r| ensures r[i].key != ms[0].key {
        SortHasSameMembers(ms[1..], r[i]);
        assert r[i] in ms[1..];
      }
      InsertSorted(ms[0], r);
    }
  }

  /** A sorted sequence is determined by its members. */
  lemma {:induction false} SortedUnique(xs: seq<Member>, ys: seq<Member>)
    requires Sorted(xs) && Sorted(ys) && (forall m :: m in xs <==> m in ys)
    ensures xs == ys
  {
    assert ys == [] || ys[0] in ys;
    if xs != [] {
      assert xs[0] in xs;
      FirstIsLeast(xs, ys);
      assert xs[0] == ys[0];
      forall m ensures m in xs[1..] <==> m in ys[1..] {
        TailMember(xs, m);
        TailMember(ys, m);
      }
      SortedUnique(xs[1..], ys[1..]);
      assert xs == [xs[0]] + xs[1..] && ys == [ys[0]] + ys[1..];
    }
  }

  lemma TailMember(xs: seq<Member>, m: Member)
    requires Sorted(xs) && xs != []
    ensures m in xs[1..] <==> m in xs && m != xs[0]
  {
    BeforeIrreflexive(xs[0].key);
    assert xs == [xs[0]] + xs[1..];
  }

  lemma FirstIsLeast(xs: seq<Member>, ys: seq<Member>)
    requires Sorted(xs) && Sorted(ys) && xs != [] && ys != [] && (forall m :: m in xs <==> m in ys)
    ensures xs[0] == ys[0]
  {
    assert xs[0] in ys && ys[0] in xs;
    var i :| 0 <= i < |ys| && ys[i] == xs[0];
    var j :| 0 <= j < |xs| && xs[j] == ys[0];
    if i > 0 && j > 0 {
      BeforeTransitive(xs[0].key, xs[j].key, ys[i].key);
      BeforeIrreflexive(xs[0].key);
    }
  }

  ghost predicate Dictionaries(ms: seq<Member>) {
    forall i :: 0 <= i < |ms| ==> IsDictionary(ms[i].value)
  }

  lemma {:induction false} EqualFormsAreSame(a: Value, b: Value)
    requires IsDictionary(a) && IsDictionary(b) && Normalize(a) == Normalize(b)
    ensures Same(a, b)
    decreases a, 1
  {
    match a
    case Arr(xs) =>
      forall i | 0 <= i < |xs| ensures Same(xs[i], b.items[i]) {
        assert NormalizeItems(xs)[i] == NormalizeItems(b.items)[i];
        EqualFormsAreSame(xs[i], b.items[i]);
      }
    case Obj(xs) =>
      EqualMembersCover(xs, b.members);
      EqualMembersAreCovered(xs, b.members);
    case _ =>
  }

  lemma {:induction false} EqualMembersCover(xs: seq<Member>, ys: seq<Member>)
    requires Dictionaries(xs) && Dictionaries(ys)
    requires SortMembers(NormalizeMembers(xs)) == SortMembers(NormalizeMembers(ys))
    ensures Covers(xs, ys)
    decreases xs, 0
  {
    forall i | 0 <= i < |xs| ensures HasSame(xs[i], ys) {
      var j := MatchingMember(xs, ys, i);
      EqualFormsAreSame(xs[i].value, ys[j].value);
      assert SameMember(xs[i], ys[j]);
    }
  }

  lemma {:induction false} EqualMembersAreCovered(xs: seq<Member>, ys: seq<Member>)
    requires Dictionaries(xs) && Dictionaries(ys)
    requires SortMembers(NormalizeMembers(xs)) == SortMembers(NormalizeMembers(ys))
    ensures CoveredBy(xs, ys)
    decreases xs, 0
  {
    forall j | 0 <= j < |ys| ensures IsSameAsSome(xs, ys[j]) {
      var i := MatchingMember(ys, xs, j);
      EqualFormsAreSame(xs[i].value, ys[j].value);
      assert SameMember(xs[i], ys[j]);
    }
  }

  lemma MatchingMember(xs: seq<Member>, ys: seq<Member>, i: nat) returns (j: nat)
    requires SortMembers(NormalizeMembers(xs)) == SortMembers(NormalizeMembers(ys)) && i < |xs|
    ensures j < |ys| && xs[i].key == ys[j].key && Normalize(xs[i].value) == Normalize(ys[j].value)
  {
    var m := NormalizeMembers(xs)[i];
    SortHasSameMembers(NormalizeMembers(xs), m);
    SortHasSameMembers(NormalizeMembers(ys), m);
    j :| 0 <= j < |ys| && NormalizeMembers(ys)[j] == m;
  }

  lemma {:induction false} SameFormsAreEqual(a: Value, b: Value)
    requires IsDictionary(a) && IsDictionary(b) && Same(a, b)
    ensures Normalize(a) == Normalize(b)
    decreases a, 1
  {
    match a
    case Arr(xs) =>
      forall i | 0 <= i < |xs| ensures NormalizeItems(xs)[i] == NormalizeItems(b.items)[i] {
        SameFormsAreEqual(xs[i], b.items[i]);
      }
      assert NormalizeItems(xs) == NormalizeItems(b.items);
    case Obj(xs) =>
      forall m ensures m in NormalizeMembers(xs) <==> m in NormalizeMembers(b.members) {
        if m in NormalizeMembers(xs) { CoveredMember(xs, b.members, m); }
        if m in NormalizeMembers(b.members) { CoveringMember(xs, b.members, m); }
      }
      SortForgetsOrder(NormalizeMembers(xs), NormalizeMembers(b.members));
    case _ =>
  }

  /** Sorting forgets the order of members with distinct keys. */
  lemma SortForgetsOrder(xs: seq<Member>, ys: seq<Member>)
    requires DistinctKeys(xs) && DistinctKeys(ys) && (forall m :: m in xs <==> m in ys)
    ensures SortMembers(xs) == SortMembers(ys)
  {
    SortSorts(xs);
    SortSorts(ys);
    forall m ensures m in SortMembers(xs) <==> m in SortMembers(ys) {
      SortHasSameMembers(xs, m);
      SortHasSameMembers(ys, m);
    }
    SortedUnique(SortMembers(xs), SortMembers(ys));
  }

  lemma {:induction false} CoveredMember(xs: seq<Member>, ys: seq<Member>, m: Member)
    requires Dictionaries(xs) && Dictionaries(ys) && Covers(xs, ys) && m in NormalizeMembers(xs)
    ensures m in NormalizeMembers(ys)
    decreases xs, 0
  {
    var i :| 0 <= i < |xs| && NormalizeMembers(xs)[i] == m;
    assert HasSame(xs[i], ys);
    var j :| 0 <= j < |ys| && SameMember(xs[i], ys[j]);
    SameFormsAreEqual(xs[i].value, ys[j].value);
    assert NormalizeMembers(ys)[j] == m;
  }

  lemma {:induction false} CoveringMember(xs: seq<Member>, ys: seq<Member>, m: Member)
    requires Dictionaries(xs) && Dictionaries(ys) && CoveredBy(xs, ys) && m in NormalizeMembers(ys)
    ensures m in NormalizeMembers(xs)
    decreases xs, 0
  {
    var j :| 0 <= j < |ys| && NormalizeMembers(ys)[j] == m;
    assert IsSameAsSome(xs, ys[j]);
    var i :| 0 <= i < |xs| && SameMember(xs[i], ys[j]);
    SameFormsAreEqual(xs[i].value, ys[j].value);
    assert NormalizeMembers(xs)[i] == m;
  }

  /** Two payloads have the same canonical text exactly when they are the same JSON value up to the
      order of object members. */
  lemma CanonicalTextIsFaithful(a: Value, b: Value)
    requires IsDictionary(a) && IsDictionary(b)
    ensures Canonical(a) == Canonical(b) <==> Same(a, b)
  {
    if Canonical(a) == Canonical(b) {
      PrintInjective(Normalize(a), Normalize(b));
      EqualFormsAreSame(a, b);
    }
    if Same(a, b) {
      SameFormsAreEqual(a, b);
    }
  }

  // ---------------------------------------------------------------- one text in full

  lemma SampleKey(c: char, rest: string)
    requires EscapeChar(c) == [c]
    ensures QuoteThen([c], rest) == "\"" + [c] + "\"" + rest
  {
    assert [c][1..] == "";
    assert EscapeThen([c], rest) == [c] + ("\"" + rest);
  }

  lemma SampleString(rest: string)
    ensures QuoteThen("x\ny", rest) == "\"x\\ny\"" + rest
  {
    assert "x\ny"[1..] == "\ny" && "\ny"[1..] == "y" && "y"[1..] == "";
    assert EscapeThen("y", rest) == "y\"" + rest;
    assert EscapeThen("\ny", rest) == "\\ny\"" + rest;
  }

  lemma SampleSorted(a: Member, b: Member)
    requires a.key == "a" && b.key == "b"
    ensures SortMembers([b, a]) == [a, b]
  {
    assert [b, a][1..] == [a] && [a][1..] == [];
    assert SortMembers([a]) == [a];
    assert Insert(b, [a]) == [a] + Insert(b, []);
  }

  lemma SampleB(rest: string)
    ensures MemberThen(Member("b", Null), rest) == "\"b\":null" + rest
  {
    SampleKey('b', ":" + ("null" + rest));
    assert "\"b\":null" + rest == "\"" + ['b'] + "\"" + (":" + ("null" + rest));
  }

  lemma SampleA(rest: string)
    ensures MemberThen(Member("a", Str("x\ny")), rest) == "\"a\":\"x\\ny\"" + rest
  {
    SampleString(rest);
    var value := "\"x\\ny\"" + rest;
    SampleKey('a', ":" + value);
    assert "\"a\":\"x\\ny\"" + rest == "\"" + ['a'] + "\"" + (":" + value);
  }

  lemma TwoMembers(m: Member, n: Member)
    ensures PrintThen(Obj([m, n]), "") == "{" + MemberThen(m, "," + MemberThen(n, "}"))
  {
    assert [m, n][1..] == [n] && [n][1..] == [];
    assert MembersThen([], "") == "}" + "" == "}";
  }

  lemma SampleNormal(a: Member, b: Member)
    requires a == Member("a", Str("x\ny")) && b == Member("b", Null)
    ensures Normalize(Obj([b, a])) == Obj([a, b])
  {
    assert [b, a][1..] == [a] && [a][1..] == [];
    assert NormalizeMembers([a]) == [a];
    assert NormalizeMembers([b, a]) == [b, a];
    SampleSorted(a, b);
  }

  lemma SampleTail()
    ensures "," + MemberThen(Member("b", Null), "}") == ",\"b\":null}"
  {
    SampleB("}");
  }

  lemma SamplePrinted(a: Member, b: Member)
    requires a == Member("a", Str("x\ny")) && b == Member("b", Null)
    ensures PrintThen(Obj([a, b]), "") == "{\"a\":\"x\\ny\"" + ",\"b\":null}"
  {
    TwoMembers(a, b);
    SampleTail();
    SampleA(",\"b\":null}");
  }

  /** What the printer writes, character by character, for `{"b": null, "a": "x\ny"}`. */
  lemma SampleText()
    ensures Canonical(Obj([Member("b", Null), Member("a", Str("x\ny"))])) == "{\"a\":\"x\\ny\"" + ",\"b\":null}"
  {
    SampleNormal(Member("a", Str("x\ny")), Member("b", Null));
    SamplePrinted(Member("a", Str("x\ny")), Member("b", Null));
  }
}
