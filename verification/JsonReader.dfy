/** A reader for JSON texts (RFC 8259), written without looking at the printer, and the round trip: it
    gives back what was printed. */
module JsonReader {
  import opened Domain
  import opened Text
  import opened Json

  /** What was read, and the text behind it. */
  datatype Reading<+T> = Reading(value: T, rest: string)

  // ---------------------------------------------------------------- numbers

  /** What may follow a value inside a larger text: nothing, a comma or a closing bracket. */
  ghost predicate Delimited(rest: string) {
    rest == "" || rest[0] == ',' || rest[0] == ']' || rest[0] == '}'
  }

  ghost predicate IsNumberText(s: string) {
    forall i :: 0 <= i < |s| ==> IsNumberChar(s[i])
  }

  /** A decimal numeral counts its digits by powers of ten. */
  function NumeralValue(s: string): int {
    if s == "" then 0 else 10 * NumeralValue(s[..|s| - 1]) + (s[|s| - 1] as int - '0' as int)
  }

  predicate IsNumeral(s: string) {
    && s != "" && (forall i :: 0 <= i < |s| ==> '0' <= s[i] <= '9')
    && (s[0] == '0' ==> |s| == 1)
  }

  function IntValue(s: string): Option<int> {
    if IsNumeral(s) then Some(NumeralValue(s))
    else if s != "" && s[0] == '-' && IsNumeral(s[1..]) then Some(-NumeralValue(s[1..]))
    else None
  }

  lemma {:induction false} DigitsReadBack(n: nat)
    ensures IsNumeral(Digits(n)) && NumeralValue(Digits(n)) == n
    ensures n > 0 ==> Digits(n)[0] != '0'
  {
    var s := Digits(n);
    if n < 10 {
      assert s[..0] == "";
    } else {
      DigitsReadBack(n / 10);
      assert s[..|s| - 1] == Digits(n / 10);
    }
  }

  /** The printed form of an integer reads back as that integer, and holds no leading zero. */
  lemma IntTextReadsBack(n: int)
    ensures IntValue(IntText(n)) == Some(n)
  {
    if n < 0 {
      DigitsReadBack(-n);
      assert IntText(n)[1..] == Digits(-n);
    } else {
      DigitsReadBack(n);
    }
  }

  /** How far a number reaches. */
  function NumberLength(s: string): (n: nat)
    ensures n <= |s|
  {
    if s == "" || !IsNumberChar(s[0]) then 0 else 1 + NumberLength(s[1..])
  }

  lemma {:induction false} NumberStops(t: string, rest: string)
    requires IsNumberText(t) && Delimited(rest)
    ensures NumberLength(t + rest) == |t|
  {
    if t == "" {
      assert t + rest == rest;
    } else {
      assert (t + rest)[1..] == t[1..] + rest;
      NumberStops(t[1..], rest);
    }
  }

  function ReadNumber(s: string): (r: Option<Reading<Value>>)
    ensures r.Some? ==> |r.value.rest| < |s|
  {
    var text, rest := s[..NumberLength(s)], s[NumberLength(s)..];
    if IsFloatText(text) then Some(Reading(Float(text), rest))
    else if IntValue(text).Some? then Some(Reading(Int(IntValue(text).value), rest))
    else None
  }

  lemma NumberIsCutOff(text: string, rest: string)
    requires IsNumberText(text) && Delimited(rest)
    ensures NumberLength(text + rest) == |text|
    ensures (text + rest)[..|text|] == text && (text + rest)[|text|..] == rest
  {
    NumberStops(text, rest);
  }

  lemma IntReadsBack(n: int, rest: string)
    requires Delimited(rest)
    ensures ReadNumber(IntText(n) + rest) == Some(Reading(Int(n), rest))
  {
    NumberIsCutOff(IntText(n), rest);
    IntTextReadsBack(n);
  }

  lemma FloatReadsBack(text: FloatText, rest: string)
    requires Delimited(rest)
    ensures ReadNumber(text + rest) == Some(Reading(Float(text), rest))
  {
    NumberIsCutOff(text, rest);
  }

  // ---------------------------------------------------------------- strings

  function HexValue(c: char): Option<nat> {
    if '0' <= c <= '9' then Some(c as int - '0' as int)
    else if 'a' <= c <= 'f' then Some(c as int - 'a' as int + 10)
    else if 'A' <= c <= 'F' then Some(c as int - 'A' as int + 10)
    else None
  }

  /** The character with this code in four hexadecimal digits; halves of surrogate pairs are not read. */
  function HexChar(s: string): Option<char>
    requires |s| == 4
  {
    if exists i :: 0 <= i < 4 && HexValue(s[i]) == None then None
    else
      var code := ((HexValue(s[0]).value * 16 + HexValue(s[1]).value) * 16 + HexValue(s[2]).value) * 16
        + HexValue(s[3]).value;
      if code < 0xD800 || 0xE000 <= code < 0x11_0000 then Some(code as char) else None
  }

  /** The escapes of two characters. */
  function Escaped(c: char): Option<char> {
    match c
    case '\"' => Some('\"')
    case '\\' => Some('\\')
    case '/' => Some('/')
    case 'b' => Some(8 as char)
    case 'f' => Some(12 as char)
    case 'n' => Some('\n')
    case 'r' => Some('\r')
    case 't' => Some('\t')
    case _ => None
  }

  function Prepend(c: Option<char>, r: Option<Reading<string>>): Option<Reading<string>> {
    if c == None || r == None then None else Some(Reading([c.value] + r.value.value, r.value.rest))
  }

  /** The rest of a string up to its closing quote. */
  function ReadString(s: string): (r: Option<Reading<string>>)
    ensures r.Some? ==> |r.value.rest| < |s|
    decreases |s|
  {
    if s == "" || s[0] < ' ' then None
    else if s[0] == '\"' then Some(Reading("", s[1..]))
    else if s[0] != '\\' then Prepend(Some(s[0]), ReadString(s[1..]))
    else if |s| >= 6 && s[1] == 'u' then Prepend(HexChar(s[2..6]), ReadString(s[6..]))
    else if |s| >= 2 then Prepend(Escaped(s[1]), ReadString(s[2..]))
    else None
  }

  lemma ControlReadsBack(c: char)
    requires c < 32 as char
    ensures HexChar("00" + [HexDigit(c as int / 16), HexDigit(c as int % 16)]) == Some(c)
  {
    var s := "00" + [HexDigit(c as int / 16), HexDigit(c as int % 16)];
    assert HexValue(s[2]) == Some(c as int / 16) && HexValue(s[3]) == Some(c as int % 16);
  }

  lemma EscapeReadsBack(c: char, e: char, rest: string)
    requires EscapeChar(c) == ['\\', e] && e != 'u'
    ensures Escaped(e) == Some(c) && ReadString(EscapeChar(c) + rest) == Prepend(Some(c), ReadString(rest))
  {
    assert (EscapeChar(c) + rest)[2..] == rest;
  }

  lemma CodeReadsBack(c: char, rest: string)
    requires c < 32 as char
    ensures var code := "\\u00" + [HexDigit(c as int / 16), HexDigit(c as int % 16)];
      ReadString(code + rest) == Prepend(Some(c), ReadString(rest))
  {
    var code := "\\u00" + [HexDigit(c as int / 16), HexDigit(c as int % 16)];
    ControlReadsBack(c);
    assert (code + rest)[2..6] == code[2..] && code[2..] == "00" + code[4..] && (code + rest)[6..] == rest;
    assert code[4..] == [HexDigit(c as int / 16), HexDigit(c as int % 16)];
  }

  lemma PlainReadsBack(c: char, rest: string)
    requires c >= ' ' && c != '\"' && c != '\\'
    ensures ReadString([c] + rest) == Prepend(Some(c), ReadString(rest))
  {
    assert ([c] + rest)[1..] == rest;
  }

  /** Every character comes back from its escape. */
  lemma CharReadsBack(c: char, rest: string)
    ensures ReadString(EscapeChar(c) + rest) == Prepend(Some(c), ReadString(rest))
  {
    if |EscapeChar(c)| == 1 {
      PlainReadsBack(c, rest);
    } else if |EscapeChar(c)| == 2 {
      EscapeReadsBack(c, EscapeChar(c)[1], rest);
    } else {
      CodeReadsBack(c, rest);
    }
  }

  lemma {:induction false} StringReadsBack(s: string, rest: string)
    ensures ReadString(EscapeThen(s, rest)) == Some(Reading(s, rest))
  {
    if s == "" {
      assert ("\"" + rest)[1..] == rest;
    } else {
      CharReadsBack(s[0], EscapeThen(s[1..], rest));
      StringReadsBack(s[1..], rest);
      assert [s[0]] + s[1..] == s;
    }
  }

  // ---------------------------------------------------------------- values

  function ReadWord(word: string, v: Value, s: string): (r: Option<Reading<Value>>)
    ensures r.Some? && word != "" ==> |r.value.rest| < |s|
  {
    if word <= s then Some(Reading(v, s[|word|..])) else None
  }

  function ReadValue(s: string): (r: Option<Reading<Value>>)
    ensures r.Some? ==> |r.value.rest| < |s|
    decreases |s|, 0
  {
    if s == "" then None
    else if s[0] == '-' || '0' <= s[0] <= '9' then ReadNumber(s)
    else match s[0]
      case 'n' => ReadWord("null", Null, s)
      case 't' => ReadWord("true", Bool(true), s)
      case 'f' => ReadWord("false", Bool(false), s)
      case '\"' => ReadQuoted(s)
      case '[' => ReadArray(s[1..])
      case '{' => ReadObject(s[1..])
      case _ => None
  }

  function ReadQuoted(s: string): (r: Option<Reading<Value>>)
    requires s != ""
    ensures r.Some? ==> |r.value.rest| < |s|
  {
    var r := ReadString(s[1..]);
    if r == None then None else Some(Reading(Str(r.value.value), r.value.rest))
  }

  /** Behind the opening bracket. */
  function ReadArray(s: string): (r: Option<Reading<Value>>)
    ensures r.Some? ==> |r.value.rest| < |s|
    decreases |s|, 1
  {
    if s != "" && s[0] == ']' then Some(Reading(Arr([]), s[1..]))
    else
      var first := ReadValue(s);
      if first == None then None
      else
        var more := ReadItems(first.value.rest);
        if more == None then None else Some(Reading(Arr([first.value.value] + more.value.value), more.value.rest))
  }

  function ReadObject(s: string): (r: Option<Reading<Value>>)
    ensures r.Some? ==> |r.value.rest| < |s|
    decreases |s|, 1
  {
    if s != "" && s[0] == '}' then Some(Reading(Obj([]), s[1..]))
    else
      var first := ReadMember(s);
      if first == None then None
      else
        var more := ReadMembers(first.value.rest);
        if more == None then None else Some(Reading(Obj([first.value.value] + more.value.value), more.value.rest))
  }

  /** Further items, each behind its comma, up to the closing bracket. */
  function ReadItems(s: string): (r: Option<Reading<seq<Value>>>)
    ensures r.Some? ==> |r.value.rest| < |s|
    decreases |s|, 0
  {
    if s == "" then None
    else if s[0] == ']' then Some(Reading([], s[1..]))
    else if s[0] != ',' then None
    else
      var next := ReadValue(s[1..]);
      if next == None then None
      else
        var more := ReadItems(next.value.rest);
        if more == None then None else Some(Reading([next.value.value] + more.value.value, more.value.rest))
  }

  function ReadMember(s: string): (r: Option<Reading<Member>>)
    ensures r.Some? ==> |r.value.rest| < |s|
    decreases |s|, 0
  {
    if s == "" || s[0] != '\"' then None
    else
      var key := ReadString(s[1..]);
      if key == None || key.value.rest == "" || key.value.rest[0] != ':' then None
      else
        var v := ReadValue(key.value.rest[1..]);
        if v == None then None else Some(Reading(Member(key.value.value, v.value.value), v.value.rest))
  }

  function ReadMembers(s: string): (r: Option<Reading<seq<Member>>>)
    ensures r.Some? ==> |r.value.rest| < |s|
    decreases |s|, 0
  {
    if s == "" then None
    else if s[0] == '}' then Some(Reading([], s[1..]))
    else if s[0] != ',' then None
    else
      var next := ReadMember(s[1..]);
      if next == None then None
      else
        var more := ReadMembers(next.value.rest);
        if more == None then None else Some(Reading([next.value.value] + more.value.value, more.value.rest))
  }

  // ---------------------------------------------------------------- the round trip

  lemma WordReadsBack(word: string, v: Value, rest: string)
    ensures ReadWord(word, v, word + rest) == Some(Reading(v, rest))
  {
    assert (word + rest)[|word|..] == rest;
  }

  lemma WordsReadBack(v: Value, rest: string)
    requires v.Null? || v.Bool?
    ensures ReadValue(PrintThen(v, rest)) == Some(Reading(v, rest))
  {
    WordReadsBack("null", Null, rest);
    WordReadsBack("true", Bool(true), rest);
    WordReadsBack("false", Bool(false), rest);
  }

  lemma QuotedReadsBack(s: string, rest: string)
    ensures ReadValue(QuoteThen(s, rest)) == Some(Reading(Str(s), rest))
  {
    StringReadsBack(s, rest);
    assert QuoteThen(s, rest)[1..] == EscapeThen(s, rest);
  }

  lemma NumberComesFirst(s: string)
    requires s != "" && (s[0] == '-' || '0' <= s[0] <= '9')
    ensures ReadValue(s) == ReadNumber(s)
  {
  }

  lemma ScalarReadsBack(v: Value, rest: string)
    requires !v.Arr? && !v.Obj? && Delimited(rest)
    ensures ReadValue(PrintThen(v, rest)) == Some(Reading(v, rest))
  {
    if v.Null? || v.Bool? {
      WordsReadBack(v, rest);
    } else if v.Str? {
      QuotedReadsBack(v.s, rest);
    } else {
      NumberComesFirst(PrintThen(v, rest));
      if v.Int? { IntReadsBack(v.n, rest); } else { FloatReadsBack(v.text, rest); }
    }
  }

  /** Whatever value is printed, and whatever stands behind it, reading gives back the value and leaves
      what stands behind. */
  lemma {:induction false} PrintReadsBack(v: Value, rest: string)
    requires Delimited(rest)
    ensures ReadValue(PrintThen(v, rest)) == Some(Reading(v, rest))
    decreases v, 1
  {
    match v
    case Arr(items) => ArrayReadsBack(items, rest);
    case Obj(members) => ObjectReadsBack(members, rest);
    case _ => ScalarReadsBack(v, rest);
  }

  lemma BracketComesFirst(s: string)
    ensures ReadValue("[" + s) == ReadArray(s)
    ensures ReadValue("{" + s) == ReadObject(s)
  {
    assert ("[" + s)[1..] == s && ("{" + s)[1..] == s;
  }

  lemma EmptyArrayReadsBack(rest: string)
    ensures ReadValue("[" + ("]" + rest)) == Some(Reading(Arr([]), rest))
  {
    BracketComesFirst("]" + rest);
    assert ("]" + rest)[1..] == rest;
  }

  lemma EmptyObjectReadsBack(rest: string)
    ensures ReadValue("{" + ("}" + rest)) == Some(Reading(Obj([]), rest))
  {
    BracketComesFirst("}" + rest);
    assert ("}" + rest)[1..] == rest;
  }

  lemma ItemsAreRead(s: string, v: Value, t: string, items: seq<Value>, rest: string)
    requires s != "" && s[0] != ']' && ReadValue(s) == Some(Reading(v, t)) && ReadItems(t) == Some(Reading(items, rest))
    ensures ReadValue("[" + s) == Some(Reading(Arr([v] + items), rest))
  {
    BracketComesFirst(s);
  }

  lemma MembersAreRead(s: string, m: Member, t: string, ms: seq<Member>, rest: string)
    requires s != "" && s[0] != '}' && ReadMember(s) == Some(Reading(m, t)) && ReadMembers(t) == Some(Reading(ms, rest))
    ensures ReadValue("{" + s) == Some(Reading(Obj([m] + ms), rest))
  {
    BracketComesFirst(s);
  }

  lemma {:induction false} ArrayReadsBack(items: seq<Value>, rest: string)
    ensures ReadValue(PrintThen(Arr(items), rest)) == Some(Reading(Arr(items), rest))
    decreases items, 1
  {
    if items == [] {
      EmptyArrayReadsBack(rest);
      assert "[]" + rest == "[" + ("]" + rest);
    } else {
      var more := ItemsThen(items[1..], rest);
      assert PrintThen(items[0], more)[0] == FirstChar(items[0]) != ']';
      PrintReadsBack(items[0], more);
      ItemsReadBack(items[1..], rest);
      ItemsAreRead(PrintThen(items[0], more), items[0], more, items[1..], rest);
      assert [items[0]] + items[1..] == items;
    }
  }

  lemma {:induction false} ItemsReadBack(items: seq<Value>, rest: string)
    ensures ReadItems(ItemsThen(items, rest)) == Some(Reading(items, rest))
    decreases items, 0
  {
    var s := ItemsThen(items, rest);
    if items == [] {
      assert s[1..] == rest;
    } else {
      var more := ItemsThen(items[1..], rest);
      assert s[1..] == PrintThen(items[0], more);
      PrintReadsBack(items[0], more);
      ItemsReadBack(items[1..], rest);
      assert [items[0]] + items[1..] == items;
    }
  }

  lemma {:induction false} ObjectReadsBack(members: seq<Member>, rest: string)
    ensures ReadValue(PrintThen(Obj(members), rest)) == Some(Reading(Obj(members), rest))
    decreases members, 1
  {
    if members == [] {
      EmptyObjectReadsBack(rest);
      assert "{}" + rest == "{" + ("}" + rest);
    } else {
      var more := MembersThen(members[1..], rest);
      MemberReadsBack(members[0], more);
      MembersReadBack(members[1..], rest);
      MembersAreRead(MemberThen(members[0], more), members[0], more, members[1..], rest);
      assert [members[0]] + members[1..] == members;
    }
  }

  lemma {:induction false} MemberReadsBack(m: Member, rest: string)
    requires Delimited(rest)
    ensures ReadMember(MemberThen(m, rest)) == Some(Reading(m, rest))
    decreases m, 2
  {
    var tail := ":" + PrintThen(m.value, rest);
    assert MemberThen(m, rest)[1..] == EscapeThen(m.key, tail);
    StringReadsBack(m.key, tail);
    assert tail[1..] == PrintThen(m.value, rest);
    PrintReadsBack(m.value, rest);
  }

  lemma {:induction false} MembersReadBack(members: seq<Member>, rest: string)
    ensures ReadMembers(MembersThen(members, rest)) == Some(Reading(members, rest))
    decreases members, 0
  {
    var s := MembersThen(members, rest);
    if members == [] {
      assert s[1..] == rest;
    } else {
      var more := MembersThen(members[1..], rest);
      assert s[1..] == MemberThen(members[0], more);
      MemberReadsBack(members[0], more);
      MembersReadBack(members[1..], rest);
      assert [members[0]] + members[1..] == members;
    }
  }

  /** The canonical text is a JSON text of the value with its members sorted, and nothing else. */
  lemma CanonicalReadsBack(v: Value)
    ensures ReadValue(Canonical(v)) == Some(Reading(Normalize(v), ""))
  {
    PrintReadsBack(Normalize(v), "");
  }

  // ---------------------------------------------------------------- which of the possible texts

  /** Only what must be escaped is, by the short escape if there is one; other control characters take the
      long one with lower-case digits. */
  lemma EscapesInFull(c: char)
    ensures EscapeChar('\"') == "\\\"" && EscapeChar('\\') == "\\\\"
    ensures EscapeChar('\n') == "\\n" && EscapeChar('\r') == "\\r" && EscapeChar('\t') == "\\t"
    ensures EscapeChar(8 as char) == "\\b" && EscapeChar(12 as char) == "\\f"
    ensures c >= ' ' && c != '\"' && c != '\\' ==> EscapeChar(c) == [c]
    ensures c < ' ' && c !in {'\n', '\r', '\t', 8 as char, 12 as char} ==>
      EscapeChar(c) == "\\u00" + ["0123456789abcdef"[c as int / 16], "0123456789abcdef"[c as int % 16]]
  {
  }

  /** Nothing in it has to be escaped. */
  predicate Plain(s: string) {
    forall i :: 0 <= i < |s| ==> s[i] >= ' ' && s[i] != '\"' && s[i] != '\\'
  }

  lemma {:induction false} PlainIsItself(s: string, rest: string)
    requires Plain(s)
    ensures EscapeThen(s, rest) == s + ("\"" + rest)
  {
    if s == "" {
      assert s + ("\"" + rest) == "\"" + rest;
    } else {
      PlainIsItself(s[1..], rest);
      assert [s[0]] + (s[1..] + ("\"" + rest)) == s + ("\"" + rest);
    }
  }
}
