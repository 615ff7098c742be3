/** The text that is hashed for an audit row, spelled out, and what can be read back from it. */
module AuditText {
  import opened Domain
  import opened Strings = Text
  import opened Json
  import opened JsonReader
  import opened JsonLaws
  import opened AuditChain

  /** The payload's members in the order of their keys. */
  function SortedPayload(e: Event, prevHash: Hash): seq<Member> {
    [Member("actor_user_id", Int(e.actor)),
     Member("evaluation_record_id", if e.record.Some? then Int(e.record.value) else Null),
     Member("event_type", Str(e.kind)),
     Member("new_value", Normalize(OrNull(e.after))),
     Member("old_value", Normalize(OrNull(e.before))),
     Member("prev_hash", Str(prevHash))]
  }

  lemma {:induction false} AscendingKeys(ms: seq<Member>, i: nat, j: nat)
    requires i < j < |ms| && forall k :: 0 < k < |ms| ==> Before(ms[k - 1].key, ms[k].key)
    ensures Before(ms[i].key, ms[j].key)
    decreases j
  {
    if i < j - 1 {
      AscendingKeys(ms, i, j - 1);
      BeforeTransitive(ms[i].key, ms[j - 1].key, ms[j].key);
    }
  }

  lemma EventComesAfterEvaluation()
    ensures Before("evaluation_record_id", "event_type")
  {
    var a, b := "evaluation_record_id", "event_type";
    assert a[1..][0] == b[1..][0] == 'v' && a[1..][1..][0] == 'a' && b[1..][1..][0] == 'e';
    assert Before(a[1..][1..], b[1..][1..]) && Before(a[1..], b[1..]);
  }

  lemma KeysAscend(e: Event, prevHash: Hash)
    ensures Sorted(SortedPayload(e, prevHash))
  {
    var ms := SortedPayload(e, prevHash);
    EventComesAfterEvaluation();
    forall k | 0 < k < |ms| ensures Before(ms[k - 1].key, ms[k].key) {
    }
    forall i, j | 0 <= i < j < 6 ensures Before(ms[i].key, ms[j].key) {
      AscendingKeys(ms, i, j);
    }
  }

  lemma SortedAreDistinct(ms: seq<Member>, i: nat, j: nat)
    requires Sorted(ms) && i < j < |ms|
    ensures ms[i].key != ms[j].key
  {
    BeforeIrreflexive(ms[i].key);
  }

  lemma SortedIsSorted(ms: seq<Member>)
    requires Sorted(ms)
    ensures DistinctKeys(ms) && SortMembers(ms) == ms
  {
    forall i, j | 0 <= i < j < |ms| ensures ms[i].key != ms[j].key {
      SortedAreDistinct(ms, i, j);
    }
    SortSorts(ms);
    forall m ensures m in SortMembers(ms) <==> m in ms {
      SortHasSameMembers(ms, m);
    }
    SortedUnique(SortMembers(ms), ms);
  }

  /** The members as the program lists them. */
  function Listed(ms: seq<Member>): seq<Member>
    requires |ms| == 6
  {
    [ms[0], ms[2], ms[1], ms[4], ms[3], ms[5]]
  }

  lemma ListedAreSorted(ms: seq<Member>)
    requires |ms| == 6 && Sorted(ms)
    ensures SortMembers(Listed(ms)) == ms
  {
    SortedIsSorted(ms);
    SortForgetsOrder(Listed(ms), ms);
  }

  lemma NormalScalars(n: int, s: string)
    ensures Normalize(Int(n)) == Int(n) && Normalize(Str(s)) == Str(s) && Normalize(Null) == Null
  {
  }

  lemma PayloadIsListed(e: Event, prevHash: Hash)
    ensures NormalizeMembers(Payload(e, prevHash).members) == Listed(SortedPayload(e, prevHash))
  {
    var ms, listed := Payload(e, prevHash).members, Listed(SortedPayload(e, prevHash));
    NormalScalars(e.actor, e.kind);
    NormalScalars(if e.record.Some? then e.record.value else 0, prevHash);
    forall i | 0 <= i < 6 ensures Member(ms[i].key, Normalize(ms[i].value)) == listed[i] {
    }
  }

  lemma PayloadIsSorted(e: Event, prevHash: Hash)
    ensures Normalize(Payload(e, prevHash)) == Obj(SortedPayload(e, prevHash))
  {
    PayloadIsListed(e, prevHash);
    KeysAscend(e, prevHash);
    ListedAreSorted(SortedPayload(e, prevHash));
  }

  /** From the hashed text a reader of JSON gets back every field, with the dictionaries' members sorted. */
  lemma HashedTextReadsBack(e: Event, prevHash: Hash)
    ensures ReadValue(AuditChain.Text(e, prevHash)) == Some(Reading(Obj(SortedPayload(e, prevHash)), ""))
  {
    CanonicalReadsBack(Payload(e, prevHash));
    PayloadIsSorted(e, prevHash);
  }

  // ---------------------------------------------------------------- the text in full

  /** A plain text in quotes. */
  function Quoted(s: string): string {
    "\"" + s + "\""
  }

  /** A member followed by what comes behind it. */
  function Field(key: string, text: string, rest: string): string {
    Quoted(key) + (":" + (text + rest))
  }

  lemma PlainQuote(s: string, rest: string)
    requires Plain(s)
    ensures QuoteThen(s, rest) == Quoted(s) + rest
  {
    PlainIsItself(s, rest);
    assert "\"" + (s + ("\"" + rest)) == Quoted(s) + rest;
  }

  lemma PlainMember(key: string, value: Value, rest: string)
    requires Plain(key)
    ensures MemberThen(Member(key, value), rest) == Quoted(key) + (":" + PrintThen(value, rest))
  {
    PlainQuote(key, ":" + PrintThen(value, rest));
  }

  lemma {:induction false} MemberAfterComma(ms: seq<Member>, i: nat)
    requires i < |ms|
    ensures MembersThen(ms[i..], "") == "," + MemberThen(ms[i], MembersThen(ms[i + 1..], ""))
  {
    assert ms[i..][0] == ms[i] && ms[i..][1..] == ms[i + 1..];
  }

  lemma SixMembers(ms: seq<Member>)
    requires |ms| == 6
    ensures PrintThen(Obj(ms), "") ==
      "{" + MemberThen(ms[0], "," + MemberThen(ms[1], "," + MemberThen(ms[2],
      "," + MemberThen(ms[3], "," + MemberThen(ms[4], "," + MemberThen(ms[5], "}"))))))
  {
    assert ms[6..] == [] && "}" + "" == "}";
    MemberAfterComma(ms, 5);
    MemberAfterComma(ms, 4);
    MemberAfterComma(ms, 3);
    MemberAfterComma(ms, 2);
    MemberAfterComma(ms, 1);
  }

  function RecordText(record: Option<int>): string {
    if record.Some? then IntText(record.value) else "null"
  }

  lemma RecordIsPrinted(record: Option<int>, rest: string)
    ensures PrintThen(if record.Some? then Int(record.value) else Null, rest) == RecordText(record) + rest
  {
  }

  lemma KeysArePlain()
    ensures Plain("actor_user_id") && Plain("evaluation_record_id") && Plain("event_type")
    ensures Plain("new_value") && Plain("old_value") && Plain("prev_hash")
  {
  }

  /** The hashed text from the first brace to the last: six members in the order of their keys, without a
      space; plain event types and hashes stand as they are. */
  lemma TextInFull(e: Event, prevHash: Hash)
    requires Plain(e.kind) && Plain(prevHash)
    ensures AuditChain.Text(e, prevHash) ==
      "{" + Field("actor_user_id", IntText(e.actor), "," + Field("evaluation_record_id", RecordText(e.record),
      "," + Field("event_type", Quoted(e.kind), "," + Field("new_value", "", PrintThen(Normalize(OrNull(e.after)),
      "," + Field("old_value", "", PrintThen(Normalize(OrNull(e.before)),
      "," + Field("prev_hash", Quoted(prevHash), "}"))))))))
  {
    KeysArePlain();
    PayloadIsSorted(e, prevHash);
    var ms := SortedPayload(e, prevHash);
    SixMembers(ms);
    PlainMember("prev_hash", ms[5].value, "}");
    PlainQuote(prevHash, "}");
    var rest := "," + MemberThen(ms[5], "}");
    PlainMember("old_value", ms[4].value, rest);
    rest := "," + MemberThen(ms[4], rest);
    PlainMember("new_value", ms[3].value, rest);
    rest := "," + MemberThen(ms[3], rest);
    PlainMember("event_type", ms[2].value, rest);
    PlainQuote(e.kind, rest);
    rest := "," + MemberThen(ms[2], rest);
    PlainMember("evaluation_record_id", ms[1].value, rest);
    RecordIsPrinted(e.record, rest);
    rest := "," + MemberThen(ms[1], rest);
    PlainMember("actor_user_id", ms[0].value, rest);
    assert forall t: string :: "" + t == t;
  }

  lemma SampleValue(rest: string)
    ensures var v := Obj([Member("ok", Bool(true))]);
      Normalize(v) == v && PrintThen(v, rest) == "{" + Field("ok", "true", "}" + rest)
  {
    var ok := Member("ok", Bool(true));
    assert [ok][1..] == [] && NormalizeMembers([ok]) == [ok] && SortMembers([ok]) == [ok];
    PlainMember("ok", Bool(true), "}" + rest);
  }

  /** One event with numbers of several digits, a dictionary and nothing before. */
  lemma SampleText(e: Event)
    requires e == Event(12, "score", Some(10), None, Some(Obj([Member("ok", Bool(true))])))
    ensures AuditChain.Text(e, "0f") ==
      "{" + Field("actor_user_id", "12", "," + Field("evaluation_record_id", "10",
      "," + Field("event_type", "\"score\"", "," + Field("new_value", "", "{" + Field("ok", "true", "}"
      + ("," + Field("old_value", "", "null" + ("," + Field("prev_hash", "\"0f\"", "}")))))))))
  {
    assert Digits(1) == "1" && IntText(12) == "12" && IntText(10) == "10";
    assert Quoted("score") == "\"score\"" && Quoted("0f") == "\"0f\"";
    TextInFull(e, "0f");
    SampleValue("," + Field("old_value", "", "null" + ("," + Field("prev_hash", "\"0f\"", "}"))));
  }
}
