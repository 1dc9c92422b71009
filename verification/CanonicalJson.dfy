/**
The canonical JSON a digest inside a signed body is taken over, and a parser
that inverts it. The parser is what shows that the spelling loses nothing: two
values with one spelling are one value, up to the order of object members.
*/
module CanonicalJson {
  import opened Text

  // A parsed JSON value. An object keeps its members in insertion order, as a
  // Python dict does; `Real` is a number written as a fraction.
  datatype Json =
    | Null
    | Bool(b: bool)
    | Num(n: int)
    | Real(isZero: bool, literal: string)
    | Str(s: string)
    | Arr(items: Items)
    | Obj(members: Members)

  datatype Items = NoItems | Item(head: Json, tail: Items)

  datatype Members = NoMembers | Member(key: string, value: Json, rest: Members) {
    function Keys(): set<string> {
      match this
      case NoMembers => {}
      case Member(k, _, rest) => {k} + rest.Keys()
    }

    // A dict holds each key once.
    predicate Distinct() {
      match this
      case NoMembers => true
      case Member(k, _, rest) => k !in rest.Keys() && rest.Distinct()
    }
  }

  // ---- Spelling ----

  function Size(v: Json): nat {
    match v
    case Arr(items) => 1 + ItemsSize(items)
    case Obj(ms) => 1 + MembersSize(ms)
    case _ => 1
  }

  function ItemsSize(items: Items): nat {
    match items
    case NoItems => 0
    case Item(v, tail) => 1 + Size(v) + ItemsSize(tail)
  }

  function MembersSize(ms: Members): nat {
    match ms
    case NoMembers => 0
    case Member(_, v, rest) => 1 + Size(v) + MembersSize(rest)
  }

  function Insert(k: string, v: Json, ms: Members): (r: Members)
    ensures MembersSize(r) == 1 + Size(v) + MembersSize(ms)
    ensures r.Keys() == {k} + ms.Keys()
    ensures k !in ms.Keys() && ms.Distinct() ==> r.Distinct()
  {
    if ms.NoMembers? || Le(k, ms.key) then Member(k, v, ms)
    else Member(ms.key, ms.value, Insert(k, v, ms.rest))
  }

  // `sorted(value)` with each key carrying its value.
  function SortMembers(ms: Members): (r: Members)
    ensures MembersSize(r) == MembersSize(ms)
    ensures r.Keys() == ms.Keys()
    ensures ms.Distinct() ==> r.Distinct()
  {
    match ms
    case NoMembers => NoMembers
    case Member(k, v, rest) => Insert(k, v, SortMembers(rest))
  }

  function HexDigit(d: nat): char
    requires d < 16
  {
    if d < 10 then '0' + d as char else 'a' + (d - 10) as char
  }

  // json.dumps with ensure_ascii=False: quote, backslash and the C0 controls are escaped.
  function EscapeChar(c: char): string {
    if c == '\"' then "\\\""
    else if c == '\\' then "\\\\"
    else if c == '\n' then "\\n"
    else if c == '\r' then "\\r"
    else if c == '\t' then "\\t"
    else if c == 8 as char then "\\b"
    else if c == 12 as char then "\\f"
    else if c < 32 as char then "\\u00" + [HexDigit((c as nat) / 16), HexDigit((c as nat) % 16)]
    else [c]
  }

  function Escape(s: string): string {
    if s == "" then "" else EscapeChar(s[0]) + Escape(s[1..])
  }

  function Quote(s: string): string { "\"" + Escape(s) + "\"" }

  // The recursion refuses bools, non-integers and everything else it cannot
  // promise two languages spell alike.
  predicate Supported(v: Json) {
    match v
    case Bool(_) => false
    case Real(_, _) => false
    case Arr(items) => SupportedItems(items)
    case Obj(ms) => SupportedMembers(ms)
    case _ => true
  }

  predicate SupportedItems(items: Items) {
    items.Item? ==> Supported(items.head) && SupportedItems(items.tail)
  }

  predicate SupportedMembers(ms: Members) {
    ms.Member? ==> Supported(ms.value) && SupportedMembers(ms.rest)
  }

  lemma {:induction false} InsertSupported(k: string, v: Json, ms: Members)
    requires Supported(v) && SupportedMembers(ms)
    ensures SupportedMembers(Insert(k, v, ms))
  {
    if ms.Member? && !Le(k, ms.key) {
      InsertSupported(k, v, ms.rest);
    }
  }

  lemma {:induction false} SortSupported(ms: Members)
    requires SupportedMembers(ms)
    ensures SupportedMembers(SortMembers(ms))
  {
    if ms.Member? {
      SortSupported(ms.rest);
      InsertSupported(ms.key, ms.value, SortMembers(ms.rest));
    }
  }

  // The text of a supported value: sorted keys, no whitespace.
  function Spell(v: Json): string
    requires Supported(v)
    decreases Size(v)
  {
    match v
    case Null => "null"
    case Num(n) => IntText(n)
    case Str(s) => Quote(s)
    case Arr(items) => "[" + SpellItems(items) + "]"
    case Obj(ms) => SortSupported(ms); "{" + SpellMembers(SortMembers(ms)) + "}"
  }

  function SpellItems(items: Items): string
    requires SupportedItems(items)
    decreases ItemsSize(items)
  {
    match items
    case NoItems => ""
    case Item(v, NoItems) => Spell(v)
    case Item(v, tail) => Spell(v) + "," + SpellItems(tail)
  }

  function SpellMembers(ms: Members): string
    requires SupportedMembers(ms)
    decreases MembersSize(ms)
  {
    match ms
    case NoMembers => ""
    case Member(k, v, NoMembers) => Quote(k) + ":" + Spell(v)
    case Member(k, v, rest) => Quote(k) + ":" + Spell(v) + "," + SpellMembers(rest)
  }

  // `_canonical_json`; None stands for the exception.
  function CanonicalText(v: Json): Option<string> {
    if Supported(v) then Some(Spell(v)) else None
  }

  // ---- What a spelling keeps: the value with every object's members sorted ----

  function Normal(v: Json): Json
    decreases Size(v)
  {
    match v
    case Arr(items) => Arr(NormalItems(items))
    case Obj(ms) => Obj(NormalMembers(SortMembers(ms)))
    case _ => v
  }

  function NormalItems(items: Items): Items
    decreases ItemsSize(items)
  {
    match items
    case NoItems => NoItems
    case Item(v, tail) => Item(Normal(v), NormalItems(tail))
  }

  function NormalMembers(ms: Members): Members
    decreases MembersSize(ms)
  {
    match ms
    case NoMembers => NoMembers
    case Member(k, v, rest) => Member(k, Normal(v), NormalMembers(rest))
  }

  // ---- Parsing ----

  // The controls that have no escape of one letter.
  predicate LongEscaped(c: nat) { c < 32 && c !in {8, 9, 10, 12, 13} }

  // The parser reads canonical JSON and nothing more: no space, no number with a
  // leading zero, and each character escaped in its one canonical way, if at all.

  // The characters of a string literal after its opening quote (escapes as in
  // section 7 of RFC 8259), and what follows it.
  function ParseChars(s: string): (r: Option<(string, string)>)
    ensures r.Some? ==> |r.value.1| < |s|
  {
    if s == "" then None
    else if s[0] == '\"' then Some(("", s[1..]))
    else if s[0] < ' ' then None
    else if s[0] != '\\' then Prepend(s[0], ParseChars(s[1..]))
    else if |s| < 2 then None
    else if s[1] == '\"' || s[1] == '\\' then Prepend(s[1], ParseChars(s[2..]))
    else if s[1] == 'n' then Prepend('\n', ParseChars(s[2..]))
    else if s[1] == 'r' then Prepend('\r', ParseChars(s[2..]))
    else if s[1] == 't' then Prepend('\t', ParseChars(s[2..]))
    else if s[1] == 'b' then Prepend(8 as char, ParseChars(s[2..]))
    else if s[1] == 'f' then Prepend(12 as char, ParseChars(s[2..]))
    else if |s| >= 6 && s[1] == 'u' && s[2] == '0' && s[3] == '0' && IsLowerHex(s[4]) && IsLowerHex(s[5])
            && LongEscaped(16 * HexValue(s[4]) + HexValue(s[5])) then
      Prepend((16 * HexValue(s[4]) + HexValue(s[5])) as char, ParseChars(s[6..]))
    else None
  }

  function Prepend(c: char, r: Option<(string, string)>): Option<(string, string)> {
    match r
    case None => None
    case Some((s, rest)) => Some(([c] + s, rest))
  }

  function HexValue(c: char): nat
    requires IsLowerHex(c)
    ensures HexValue(c) < 16
  {
    if c <= '9' then (c - '0') as nat else 10 + (c - 'a') as nat
  }

  function DigitsPrefix(s: string): (k: nat)
    ensures k <= |s|
    ensures forall i :: 0 <= i < k ==> IsDigit(s[i])
    ensures k < |s| ==> !IsDigit(s[k])
  {
    if s == "" || !IsDigit(s[0]) then 0 else 1 + DigitsPrefix(s[1..])
  }

  function ParseUnsigned(s: string): (r: Option<(int, string)>)
    ensures r.Some? ==> |r.value.1| < |s|
  {
    var k := DigitsPrefix(s);
    if k == 0 || (s[0] == '0' && k > 1) then None else Some((NatValue(s[..k]), s[k..]))
  }

  function ParseNumber(s: string): (r: Option<(Json, string)>)
    ensures r.Some? ==> |r.value.1| < |s|
  {
    if s != "" && s[0] == '-' then
      match ParseUnsigned(s[1..]) {
        case None => None
        case Some((n, rest)) => if n == 0 then None else Some((Num(-n), rest))
      }
    else
      match ParseUnsigned(s) {
        case None => None
        case Some((n, rest)) => Some((Num(n), rest))
      }
  }

  function ParseValue(s: string): (r: Option<(Json, string)>)
    ensures r.Some? ==> |r.value.1| < |s|
    decreases |s|, 0
  {
    if s == "" then None
    else if s[0] == 'n' then (if "null" <= s then Some((Null, s[4..])) else None)
    else if s[0] == '\"' then
      match ParseChars(s[1..]) {
        case None => None
        case Some((t, rest)) => Some((Str(t), rest))
      }
    else if s[0] == '[' then
      if |s| > 1 && s[1] == ']' then Some((Arr(NoItems), s[2..]))
      else
        match ParseItems(s[1..]) {
          case None => None
          case Some((items, rest)) => Some((Arr(items), rest))
        }
    else if s[0] == '{' then
      if |s| > 1 && s[1] == '}' then Some((Obj(NoMembers), s[2..]))
      else
        match ParseMembers(s[1..]) {
          case None => None
          case Some((ms, rest)) => Some((Obj(ms), rest))
        }
    else ParseNumber(s)
  }

  function ParseItems(s: string): (r: Option<(Items, string)>)
    ensures r.Some? ==> |r.value.1| < |s|
    decreases |s|, 1
  {
    match ParseValue(s)
    case None => None
    case Some((v, rest)) =>
      if rest == "" then None
      else if rest[0] == ']' then Some((Item(v, NoItems), rest[1..]))
      else if rest[0] != ',' then None
      else
        match ParseItems(rest[1..]) {
          case None => None
          case Some((tail, rest')) => Some((Item(v, tail), rest'))
        }
  }

  function ParseMembers(s: string): (r: Option<(Members, string)>)
    ensures r.Some? ==> |r.value.1| < |s|
    decreases |s|, 1
  {
    if s == "" || s[0] != '\"' then None
    else
      match ParseChars(s[1..])
      case None => None
      case Some((k, after)) =>
        if after == "" || after[0] != ':' then None
        else
          match ParseValue(after[1..])
          case None => None
          case Some((v, rest)) =>
            if rest == "" then None
            else if rest[0] == '}' then Some((Member(k, v, NoMembers), rest[1..]))
            else if rest[0] != ',' then None
            else
              match ParseMembers(rest[1..]) {
                case None => None
                case Some((tail, rest')) => Some((Member(k, v, tail), rest'))
              }
  }

  // ---- The parser inverts the printer ----

  lemma HexDigitValue(d: nat)
    requires d < 16
    ensures IsLowerHex(HexDigit(d)) && HexValue(HexDigit(d)) == d
  {
  }

  lemma HexValueDigit(c: char)
    requires IsLowerHex(c)
    ensures HexDigit(HexValue(c)) == c
  {
  }

  lemma ParseUnicodeEscape(c: char, s: string)
    requires LongEscaped(c as nat)
    ensures ParseChars("\\u00" + [HexDigit((c as nat) / 16), HexDigit((c as nat) % 16)] + s) == Prepend(c, ParseChars(s))
  {
    var h, l := HexDigit((c as nat) / 16), HexDigit((c as nat) % 16);
    var t := "\\u00" + [h, l] + s;
    assert t[0] == '\\' && t[1] == 'u' && t[2] == '0' && t[3] == '0' && t[4] == h && t[5] == l;
    assert t[6..] == s;
    HexDigitValue((c as nat) / 16);
    HexDigitValue((c as nat) % 16);
    assert 16 * HexValue(h) + HexValue(l) == c as nat;
  }

  lemma ParseShortEscape(e: char, c: char, s: string)
    requires (e == c && (c == '\"' || c == '\\')) || (e == 'n' && c == '\n') || (e == 'r' && c == '\r')
          || (e == 't' && c == '\t') || (e == 'b' && c == 8 as char) || (e == 'f' && c == 12 as char)
    ensures ParseChars(['\\', e] + s) == Prepend(c, ParseChars(s))
  {
    var t := ['\\', e] + s;
    assert t[0] == '\\' && t[1] == e && t[2..] == s;
  }

  lemma ParseEscapedChar(c: char, s: string)
    ensures ParseChars(EscapeChar(c) + s) == Prepend(c, ParseChars(s))
  {
    var e := EscapeChar(c);
    if |e| == 1 {
      assert (e + s)[0] == c && (e + s)[1..] == s;
    } else if |e| == 2 {
      assert e == ['\\', e[1]];
      ParseShortEscape(e[1], c, s);
    } else {
      ParseUnicodeEscape(c, s);
    }
  }

  lemma {:induction false} ParseEscaped(s: string, rest: string)
    ensures ParseChars(Escape(s) + "\"" + rest) == Some((s, rest))
  {
    if s == "" {
      assert Escape(s) + "\"" + rest == "\"" + rest;
      assert ("\"" + rest)[1..] == rest;
    } else {
      ParseEscaped(s[1..], rest);
      ParseEscapedChar(s[0], Escape(s[1..]) + "\"" + rest);
      assert Escape(s) + "\"" + rest == EscapeChar(s[0]) + (Escape(s[1..]) + "\"" + rest);
      assert s == [s[0]] + s[1..];
    }
  }

  lemma ParseQuoted(s: string, rest: string)
    ensures (Quote(s) + rest)[0] == '\"'
    ensures ParseChars((Quote(s) + rest)[1..]) == Some((s, rest))
  {
    ParseEscaped(s, rest);
    assert (Quote(s) + rest)[1..] == Escape(s) + "\"" + rest;
  }

  // A number has no closing delimiter, so what follows it must not extend it.
  predicate Stops(rest: string) { rest == "" || !IsDigit(rest[0]) }

  lemma {:induction false} DigitsPrefixOf(digits: string, rest: string)
    requires forall i :: 0 <= i < |digits| ==> IsDigit(digits[i])
    requires Stops(rest)
    ensures DigitsPrefix(digits + rest) == |digits|
  {
    if digits != "" {
      DigitsPrefixOf(digits[1..], rest);
      assert (digits + rest)[1..] == digits[1..] + rest;
    } else {
      assert digits + rest == rest;
    }
  }

  lemma ParseDigits(digits: string, rest: string)
    requires Plain(digits) && Stops(rest)
    ensures ParseUnsigned(digits + rest) == Some((NatValue(digits), rest))
  {
    var s := digits + rest;
    DigitsPrefixOf(digits, rest);
    assert s[..|digits|] == digits;
    assert s[|digits|..] == rest;
  }

  lemma ParseNatText(n: nat, rest: string)
    requires Stops(rest)
    ensures ParseUnsigned(NatText(n) + rest) == Some((n as int, rest))
  {
    NatTextPlain(n);
    ParseDigits(NatText(n), rest);
    NatTextValue(n);
  }

  lemma ParseNegative(digits: string, n: int, rest: string)
    requires ParseUnsigned(digits + rest) == Some((n, rest)) && n != 0
    ensures ParseNumber("-" + digits + rest) == Some((Num(-n), rest))
  {
    var s := "-" + digits + rest;
    assert s[0] == '-' && s[1..] == digits + rest;
  }

  lemma ParsePositive(n: nat, rest: string)
    requires Stops(rest)
    ensures ParseNumber(NatText(n) + rest) == Some((Num(n), rest))
  {
    ParseNatText(n, rest);
    assert (NatText(n) + rest)[0] == NatText(n)[0];
  }

  lemma NumberBranch(s: string)
    requires s != "" && (s[0] == '-' || IsDigit(s[0]))
    ensures ParseValue(s) == ParseNumber(s)
  {
  }

  lemma ParseIntText(n: int, rest: string)
    requires Stops(rest)
    ensures ParseValue(IntText(n) + rest) == Some((Num(n), rest))
  {
    assert (IntText(n) + rest)[0] == IntText(n)[0];
    NumberBranch(IntText(n) + rest);
    if n < 0 {
      ParseNatText(-n, rest);
      ParseNegative(NatText(-n), -n, rest);
    } else {
      ParsePositive(n, rest);
    }
  }

  lemma Regroup(a: string, b: string, c: string, d: string)
    ensures a + b + c + d == a + (b + (c + d))
  {
  }

  lemma RegroupMember(k: string, text: string, tail: string, rest: string)
    ensures k + ":" + text + "," + tail + rest == k + (":" + (text + ("," + (tail + rest))))
  {
    Regroup(k + ":" + text, ",", tail, rest);
    Regroup(k, ":", text, "," + (tail + rest));
  }

  lemma ParseArr(body: string, items: Items, rest: string)
    requires body != "" && body[0] != ']'
    requires ParseItems(body + ("]" + rest)) == Some((items, rest))
    ensures ParseValue("[" + body + "]" + rest) == Some((Arr(items), rest))
  {
    Regroup("[", body, "]", rest);
    var inner := body + ("]" + rest);
    assert ("[" + inner)[1..] == inner && inner[0] == body[0];
  }

  lemma ParseObj(body: string, ms: Members, rest: string)
    requires body != "" && body[0] != '}'
    requires ParseMembers(body + ("}" + rest)) == Some((ms, rest))
    ensures ParseValue("{" + body + "}" + rest) == Some((Obj(ms), rest))
  {
    Regroup("{", body, "}", rest);
    var inner := body + ("}" + rest);
    assert ("{" + inner)[1..] == inner && inner[0] == body[0];
  }

  lemma ParseEmpty(rest: string)
    ensures ParseValue("null" + rest) == Some((Null, rest))
    ensures ParseValue("[" + "" + "]" + rest) == Some((Arr(NoItems), rest))
    ensures ParseValue("{" + "" + "}" + rest) == Some((Obj(NoMembers), rest))
  {
    var n, a, o := "null" + rest, "[" + "" + "]" + rest, "{" + "" + "}" + rest;
    assert n[4..] == rest && "null" <= n;
    assert a[0] == '[' && a[1] == ']' && a[2..] == rest;
    assert o[0] == '{' && o[1] == '}' && o[2..] == rest;
  }

  lemma ParseStr(t: string, rest: string)
    ensures ParseValue(Quote(t) + rest) == Some((Str(t), rest))
  {
    ParseQuoted(t, rest);
  }

  lemma ParseLastMember(k: string, text: string, v: Json, rest: string)
    requires ParseValue(text + ("}" + rest)) == Some((v, "}" + rest))
    ensures ParseMembers(Quote(k) + (":" + (text + ("}" + rest)))) == Some((Member(k, v, NoMembers), rest))
  {
    var tail := ":" + (text + ("}" + rest));
    ParseQuoted(k, tail);
    assert tail[1..] == text + ("}" + rest);
    assert ("}" + rest)[1..] == rest;
  }

  lemma ParseNextMember(k: string, text: string, v: Json, more: string, ms: Members, rest: string)
    requires ParseValue(text + ("," + more)) == Some((v, "," + more))
    requires ParseMembers(more) == Some((ms, rest))
    ensures ParseMembers(Quote(k) + (":" + (text + ("," + more)))) == Some((Member(k, v, ms), rest))
  {
    var tail := ":" + (text + ("," + more));
    ParseQuoted(k, tail);
    assert tail[1..] == text + ("," + more);
    assert ("," + more)[1..] == more;
  }

  lemma {:induction false} ParseSpelled(v: Json, rest: string)
    requires Supported(v) && Stops(rest)
    ensures ParseValue(Spell(v) + rest) == Some((Normal(v), rest))
    decreases Size(v)
  {
    match v
    case Null => ParseEmpty(rest);
    case Num(n) => ParseIntText(n, rest);
    case Str(t) => ParseStr(t, rest);
    case Arr(items) =>
      if items.NoItems? {
        ParseEmpty(rest);
      } else {
        ParseSpelledItems(items, rest);
        ParseArr(SpellItems(items), NormalItems(items), rest);
      }
    case Obj(ms) =>
      SortSupported(ms);
      var sorted := SortMembers(ms);
      if sorted.NoMembers? {
        ParseEmpty(rest);
      } else {
        ParseSpelledMembers(sorted, rest);
        ParseObj(SpellMembers(sorted), NormalMembers(sorted), rest);
      }
  }

  lemma {:induction false} ParseSpelledItems(items: Items, rest: string)
    requires SupportedItems(items) && items.Item?
    ensures ParseItems(SpellItems(items) + ("]" + rest)) == Some((NormalItems(items), rest))
    decreases ItemsSize(items)
  {
    var text := Spell(items.head);
    if items.tail.NoItems? {
      ParseSpelled(items.head, "]" + rest);
    } else {
      var more := SpellItems(items.tail) + ("]" + rest);
      ParseSpelled(items.head, "," + more);
      ParseSpelledItems(items.tail, rest);
      Regroup(text, ",", SpellItems(items.tail), "]" + rest);
    }
  }

  lemma {:induction false} ParseSpelledMembers(ms: Members, rest: string)
    requires SupportedMembers(ms) && ms.Member?
    ensures SpellMembers(ms)[0] == '\"'
    ensures ParseMembers(SpellMembers(ms) + ("}" + rest)) == Some((NormalMembers(ms), rest))
    decreases MembersSize(ms)
  {
    var text := Spell(ms.value);
    if ms.rest.NoMembers? {
      ParseSpelled(ms.value, "}" + rest);
      ParseLastMember(ms.key, text, Normal(ms.value), rest);
      Regroup(Quote(ms.key), ":", text, "}" + rest);
    } else {
      var more := SpellMembers(ms.rest) + ("}" + rest);
      ParseSpelled(ms.value, "," + more);
      ParseSpelledMembers(ms.rest, rest);
      ParseNextMember(ms.key, text, Normal(ms.value), more, NormalMembers(ms.rest), rest);
      RegroupMember(Quote(ms.key), text, SpellMembers(ms.rest), "}" + rest);
    }
  }

  // Main result: parsing a canonical text gives the value back, members sorted.
  lemma CanonicalRoundTrip(v: Json)
    requires CanonicalText(v).Some?
    ensures ParseValue(CanonicalText(v).value) == Some((Normal(v), ""))
  {
    ParseSpelled(v, "");
    assert Spell(v) + "" == Spell(v);
  }

  // ---- Spelling decides the value ----

  // A value as Python compares it: lists in order, dicts as maps.
  datatype Meaning = Scalar(v: Json) | List(vs: seq<Meaning>) | Dict(m: map<string, Meaning>)

  function MeaningOf(v: Json): Meaning {
    match v
    case Arr(items) => List(MeaningItems(items))
    case Obj(ms) => Dict(MeaningMembers(ms))
    case _ => Scalar(v)
  }

  function MeaningItems(items: Items): seq<Meaning> {
    match items
    case NoItems => []
    case Item(v, tail) => [MeaningOf(v)] + MeaningItems(tail)
  }

  function MeaningMembers(ms: Members): (m: map<string, Meaning>)
    ensures m.Keys == ms.Keys()
  {
    match ms
    case NoMembers => map[]
    case Member(k, v, rest) => MeaningMembers(rest)[k := MeaningOf(v)]
  }

  // Every object inside holds each of its keys once.
  predicate WellFormed(v: Json) {
    match v
    case Arr(items) => WellFormedItems(items)
    case Obj(ms) => ms.Distinct() && WellFormedMembers(ms)
    case _ => true
  }

  predicate WellFormedItems(items: Items) {
    items.Item? ==> WellFormed(items.head) && WellFormedItems(items.tail)
  }

  predicate WellFormedMembers(ms: Members) {
    ms.Member? ==> WellFormed(ms.value) && WellFormedMembers(ms.rest)
  }

  predicate Sorted(ms: Members) {
    ms.Member? ==> Sorted(ms.rest) && forall k :: k in ms.rest.Keys() ==> Lt(ms.key, k)
  }

  lemma {:induction false} InsertSorted(k: string, v: Json, ms: Members)
    requires k !in ms.Keys() && Sorted(ms)
    ensures Sorted(Insert(k, v, ms))
  {
    if ms.NoMembers? {
    } else if Le(k, ms.key) {
      forall k' | k' in ms.rest.Keys() ensures Lt(k, k') {
        LtTransitive(k, ms.key, k');
      }
    } else {
      LeTotal(k, ms.key);
      InsertSorted(k, v, ms.rest);
    }
  }

  lemma UpdatesCommute<V>(m: map<string, V>, k: string, v: V, k': string, v': V)
    requires k != k'
    ensures m[k := v][k' := v'] == m[k' := v'][k := v]
  {
  }

  lemma {:induction false} InsertMeaning(k: string, v: Json, ms: Members)
    requires k !in ms.Keys() && WellFormed(v) && WellFormedMembers(ms)
    ensures WellFormedMembers(Insert(k, v, ms))
    ensures MeaningMembers(Insert(k, v, ms)) == MeaningMembers(ms)[k := MeaningOf(v)]
  {
    if ms.Member? && !Le(k, ms.key) {
      InsertMeaning(k, v, ms.rest);
      UpdatesCommute(MeaningMembers(ms.rest), k, MeaningOf(v), ms.key, MeaningOf(ms.value));
    }
  }

  lemma {:induction false} SortKeeps(ms: Members)
    requires ms.Distinct() && WellFormedMembers(ms)
    ensures Sorted(SortMembers(ms)) && WellFormedMembers(SortMembers(ms))
    ensures MeaningMembers(SortMembers(ms)) == MeaningMembers(ms)
  {
    if ms.Member? {
      SortKeeps(ms.rest);
      InsertSorted(ms.key, ms.value, SortMembers(ms.rest));
      InsertMeaning(ms.key, ms.value, SortMembers(ms.rest));
    }
  }

  lemma {:induction false} NormalMeaning(v: Json)
    requires WellFormed(v)
    ensures MeaningOf(Normal(v)) == MeaningOf(v)
    decreases Size(v)
  {
    match v
    case Arr(items) => NormalMeaningItems(items);
    case Obj(ms) =>
      SortKeeps(ms);
      NormalMeaningMembers(SortMembers(ms));
    case _ =>
  }

  lemma {:induction false} NormalMeaningItems(items: Items)
    requires WellFormedItems(items)
    ensures MeaningItems(NormalItems(items)) == MeaningItems(items)
    decreases ItemsSize(items)
  {
    if items.Item? {
      NormalMeaning(items.head);
      NormalMeaningItems(items.tail);
    }
  }

  lemma {:induction false} NormalMeaningMembers(ms: Members)
    requires WellFormedMembers(ms)
    ensures MeaningMembers(NormalMembers(ms)) == MeaningMembers(ms)
    decreases MembersSize(ms)
  {
    if ms.Member? {
      NormalMeaning(ms.value);
      NormalMeaningMembers(ms.rest);
    }
  }

  lemma {:induction false} MeaningSpells(v: Json, w: Json)
    requires WellFormed(v) && WellFormed(w) && Supported(v) && Supported(w)
    requires MeaningOf(v) == MeaningOf(w)
    ensures Spell(v) == Spell(w)
    decreases Size(v)
  {
    match v
    case Arr(items) => MeaningSpellsItems(items, w.items);
    case Obj(ms) =>
      SortKeeps(ms);
      SortKeeps(w.members);
      SortSupported(ms);
      SortSupported(w.members);
      MeaningSpellsMembers(SortMembers(ms), SortMembers(w.members));
    case _ =>
  }

  lemma {:induction false} MeaningSpellsItems(a: Items, b: Items)
    requires WellFormedItems(a) && WellFormedItems(b) && SupportedItems(a) && SupportedItems(b)
    requires MeaningItems(a) == MeaningItems(b)
    ensures SpellItems(a) == SpellItems(b)
    decreases ItemsSize(a)
  {
    if a.Item? {
      assert MeaningItems(a)[0] == MeaningItems(b)[0];
      assert MeaningItems(a)[1..] == MeaningItems(a.tail) && MeaningItems(b)[1..] == MeaningItems(b.tail);
      MeaningSpells(a.head, b.head);
      MeaningSpellsItems(a.tail, b.tail);
    }
  }

  // Two sorted member lists with one meaning agree member by member.
  lemma {:induction false} MeaningSpellsMembers(a: Members, b: Members)
    requires WellFormedMembers(a) && WellFormedMembers(b) && SupportedMembers(a) && SupportedMembers(b)
    requires Sorted(a) && Sorted(b) && MeaningMembers(a) == MeaningMembers(b)
    ensures SpellMembers(a) == SpellMembers(b)
    decreases MembersSize(a)
  {
    assert a.Keys() == b.Keys();
    if a.Member? {
      assert a.key in b.Keys();
      assert b.key in a.Keys();
      if a.key != b.key {
        LeAntisymmetric(a.key, b.key);
      }
      assert a.key !in a.rest.Keys() && b.key !in b.rest.Keys();
      assert MeaningMembers(a.rest) == MeaningMembers(a) - {a.key};
      assert MeaningMembers(b.rest) == MeaningMembers(b) - {b.key};
      MeaningSpells(a.value, b.value);
      MeaningSpellsMembers(a.rest, b.rest);
    }
  }

  // Main result: two values have one canonical text exactly when they are equal
  // as Python values. The order in which a dict was built does not matter, and
  // nothing else is forgotten.
  lemma CanonicalDecides(v: Json, w: Json)
    requires WellFormed(v) && WellFormed(w)
    requires CanonicalText(v).Some? && CanonicalText(w).Some?
    ensures CanonicalText(v) == CanonicalText(w) <==> MeaningOf(v) == MeaningOf(w)
  {
    if CanonicalText(v) == CanonicalText(w) {
      CanonicalRoundTrip(v);
      CanonicalRoundTrip(w);
      NormalMeaning(v);
      NormalMeaning(w);
    }
    if MeaningOf(v) == MeaningOf(w) {
      MeaningSpells(v, w);
    }
  }

  // ---- The canonical text is the one text the parser reads as the value ----

  // Every object's members ascend.
  predicate InOrder(v: Json) {
    match v
    case Arr(items) => InOrderItems(items)
    case Obj(ms) => Sorted(ms) && InOrderMembers(ms)
    case _ => true
  }

  predicate InOrderItems(items: Items) { items.Item? ==> InOrder(items.head) && InOrderItems(items.tail) }

  predicate InOrderMembers(ms: Members) { ms.Member? ==> InOrder(ms.value) && InOrderMembers(ms.rest) }

  lemma EscapedOne(s: string) returns (c: char)
    requires |s| >= 2 && s[0] == '\\' && ParseChars(s).Some? && s[1] != 'u'
    ensures EscapeChar(c) == ['\\', s[1]] && ParseChars(s) == Prepend(c, ParseChars(s[2..]))
  {
    c := if s[1] == 'n' then '\n' else if s[1] == 'r' then '\r' else if s[1] == 't' then '\t'
         else if s[1] == 'b' then 8 as char else if s[1] == 'f' then 12 as char else s[1];
  }

  lemma LongShape(s: string)
    requires |s| >= 2 && s[0] == '\\' && s[1] == 'u' && ParseChars(s).Some?
    ensures |s| >= 6 && s[2] == '0' && s[3] == '0' && IsLowerHex(s[4]) && IsLowerHex(s[5])
    ensures LongEscaped(16 * HexValue(s[4]) + HexValue(s[5]))
    ensures ParseChars(s) == Prepend((16 * HexValue(s[4]) + HexValue(s[5])) as char, ParseChars(s[6..]))
  {
  }

  lemma EscapedLong(h: char, l: char)
    requires IsLowerHex(h) && IsLowerHex(l) && LongEscaped(16 * HexValue(h) + HexValue(l))
    ensures EscapeChar((16 * HexValue(h) + HexValue(l)) as char) == "\\u00" + [h, l]
  {
    HexValueDigit(h);
    HexValueDigit(l);
    var n := 16 * HexValue(h) + HexValue(l);
    assert n / 16 == HexValue(h) && n % 16 == HexValue(l);
  }

  // One character of a literal, spelled as the printer spells it.
  lemma CharStep(s: string) returns (k: nat, c: char)
    requires ParseChars(s).Some? && s[0] != '\"'
    ensures 0 < k <= |s| && EscapeChar(c) == s[..k] && ParseChars(s) == Prepend(c, ParseChars(s[k..]))
  {
    k, c := 1, s[0];
    if s[0] == '\\' {
      if s[1] == 'u' {
        LongShape(s);
        EscapedLong(s[4], s[5]);
        k, c := 6, (16 * HexValue(s[4]) + HexValue(s[5])) as char;
        assert s[..6] == "\\u00" + [s[4], s[5]];
      } else {
        k := 2;
        c := EscapedOne(s);
      }
    }
  }

  lemma EscapeCons(c: char, t: string, rest: string)
    ensures Escape([c] + t) == EscapeChar(c) + Escape(t)
    ensures Escape([c] + t) + "\"" + rest == EscapeChar(c) + (Escape(t) + "\"" + rest)
  {
    assert ([c] + t)[1..] == t;
    Regroup(EscapeChar(c), Escape(t), "\"", rest);
    Regroup("", Escape(t), "\"", rest);
  }

  lemma {:induction false} CharsSpelled(s: string, t: string, rest: string)
    requires ParseChars(s) == Some((t, rest))
    ensures s == Escape(t) + "\"" + rest
    decreases |s|
  {
    if s[0] == '\"' {
      assert s == "\"" + s[1..];
    } else {
      var k, c := CharStep(s);
      var (t', rest') := ParseChars(s[k..]).value;
      CharsSpelled(s[k..], t', rest');
      EscapeCons(c, t', rest);
      assert s == s[..k] + s[k..];
    }
  }

  lemma QuoteText(t: string, rest: string)
    ensures Quote(t) + rest == "\"" + (Escape(t) + "\"" + rest)
  {
    Regroup("\"", Escape(t), "\"", rest);
    Regroup("", Escape(t), "\"", rest);
  }

  lemma StrSpelled(s: string, v: Json, rest: string)
    requires ParseValue(s) == Some((v, rest)) && s[0] == '\"'
    ensures v.Str? && s == Quote(v.s) + rest
  {
    CharsSpelled(s[1..], v.s, rest);
    QuoteText(v.s, rest);
    assert s == "\"" + s[1..];
  }

  lemma UnsignedSpelled(s: string, n: int, rest: string)
    requires ParseUnsigned(s) == Some((n, rest))
    ensures n >= 0 && s == NatText(n) + rest
  {
    var k := DigitsPrefix(s);
    PlainValue(s[..k]);
    assert s == s[..k] + s[k..];
  }

  lemma NumberSpelled(s: string, v: Json, rest: string)
    requires ParseNumber(s) == Some((v, rest))
    ensures v.Num? && s == IntText(v.n) + rest
  {
    if s != "" && s[0] == '-' {
      UnsignedSpelled(s[1..], -v.n, rest);
      assert s == "-" + s[1..];
    } else {
      UnsignedSpelled(s, v.n, rest);
    }
  }

  lemma {:induction false} SortedStays(ms: Members)
    requires Sorted(ms)
    ensures SortMembers(ms) == ms
  {
    if ms.Member? {
      SortedStays(ms.rest);
      if ms.rest.Member? { assert ms.rest.key in ms.rest.Keys(); }
    }
  }

  lemma ArrShape(s: string, v: Json, rest: string)
    requires ParseValue(s) == Some((v, rest)) && s[0] == '['
    ensures v.Arr? && s == "[" + s[1..]
    ensures (v.items == NoItems && s[1..] == "]" + rest) || ParseItems(s[1..]) == Some((v.items, rest))
  {
  }

  lemma ObjShape(s: string, v: Json, rest: string)
    requires ParseValue(s) == Some((v, rest)) && s[0] == '{'
    ensures v.Obj? && s == "{" + s[1..]
    ensures (v.members == NoMembers && s[1..] == "}" + rest) || ParseMembers(s[1..]) == Some((v.members, rest))
  {
  }

  lemma LiteralSpelled(s: string, v: Json, rest: string)
    requires ParseValue(s) == Some((v, rest)) && s[0] != '[' && s[0] != '{'
    ensures Supported(v) && s == Spell(v) + rest
  {
    if s[0] == 'n' {
      assert s == s[..4] + s[4..];
    } else if s[0] == '\"' {
      StrSpelled(s, v, rest);
    } else {
      NumberSpelled(s, v, rest);
    }
  }

  lemma {:induction false} ValueSpelled(s: string, v: Json, rest: string)
    requires ParseValue(s) == Some((v, rest)) && InOrder(v)
    ensures Supported(v) && s == Spell(v) + rest
    decreases |s|, 0
  {
    if s[0] == '[' {
      ArrShape(s, v, rest);
      if s[1..] != "]" + rest { ItemsSpelled(s[1..], v.items, rest); }
      Regroup("[", SpellItems(v.items), "]", rest);
    } else if s[0] == '{' {
      ObjShape(s, v, rest);
      SortedStays(v.members);
      if s[1..] != "}" + rest { MembersSpelled(s[1..], v.members, rest); }
      Regroup("{", SpellMembers(v.members), "}", rest);
    } else {
      LiteralSpelled(s, v, rest);
    }
  }

  lemma ItemsShape(s: string, items: Items, rest: string) returns (after: string)
    requires ParseItems(s) == Some((items, rest))
    ensures items.Item? && ParseValue(s) == Some((items.head, after))
    ensures (items.tail == NoItems && after == "]" + rest)
         || (|after| < |s| && after != "" && after == "," + after[1..] && ParseItems(after[1..]) == Some((items.tail, rest)))
  {
    after := ParseValue(s).value.1;
    assert after == [after[0]] + after[1..];
  }

  lemma {:induction false} ItemsSpelled(s: string, items: Items, rest: string)
    requires ParseItems(s) == Some((items, rest)) && InOrderItems(items)
    ensures items.Item? && SupportedItems(items) && s == SpellItems(items) + ("]" + rest)
    decreases |s|, 1
  {
    var after := ItemsShape(s, items, rest);
    ValueSpelled(s, items.head, after);
    if after != "]" + rest {
      ItemsSpelled(after[1..], items.tail, rest);
      Regroup(Spell(items.head), ",", SpellItems(items.tail), "]" + rest);
    }
  }

  lemma MembersShape(s: string, ms: Members, rest: string) returns (after: string, more: string)
    requires ParseMembers(s) == Some((ms, rest))
    ensures ms.Member? && s != "" && s == "\"" + s[1..] && ParseChars(s[1..]) == Some((ms.key, ":" + after))
    ensures |after| < |s| && ParseValue(after) == Some((ms.value, more))
    ensures (ms.rest == NoMembers && more == "}" + rest)
         || (|more| < |s| && more != "" && more == "," + more[1..] && ParseMembers(more[1..]) == Some((ms.rest, rest)))
  {
    var colon := ParseChars(s[1..]).value.1;
    assert colon == ":" + colon[1..];
    after := colon[1..];
    more := ParseValue(after).value.1;
    assert more == [more[0]] + more[1..];
  }

  lemma KeySpelled(s: string, k: string, after: string)
    requires s != "" && s == "\"" + s[1..] && ParseChars(s[1..]) == Some((k, ":" + after))
    ensures s == Quote(k) + (":" + after)
  {
    CharsSpelled(s[1..], k, ":" + after);
    QuoteText(k, ":" + after);
  }

  lemma {:induction false} MembersSpelled(s: string, ms: Members, rest: string)
    requires ParseMembers(s) == Some((ms, rest)) && InOrderMembers(ms)
    ensures ms.Member? && SupportedMembers(ms) && s == SpellMembers(ms) + ("}" + rest)
    decreases |s|, 1
  {
    var after, more := MembersShape(s, ms, rest);
    KeySpelled(s, ms.key, after);
    ValueSpelled(after, ms.value, more);
    if more == "}" + rest && ms.rest == NoMembers {
      Regroup(Quote(ms.key), ":", Spell(ms.value), "}" + rest);
    } else {
      MembersSpelled(more[1..], ms.rest, rest);
      RegroupMember(Quote(ms.key), Spell(ms.value), SpellMembers(ms.rest), "}" + rest);
    }
  }

  lemma {:induction false} NormalInOrder(v: Json)
    requires WellFormed(v)
    ensures InOrder(Normal(v)) && WellFormed(Normal(v))
    decreases Size(v)
  {
    match v
    case Arr(items) => NormalItemsInOrder(items);
    case Obj(ms) =>
      SortKeeps(ms);
      NormalMembersInOrder(SortMembers(ms));
    case _ =>
  }

  lemma {:induction false} NormalItemsInOrder(items: Items)
    requires WellFormedItems(items)
    ensures InOrderItems(NormalItems(items)) && WellFormedItems(NormalItems(items))
    decreases ItemsSize(items)
  {
    if items.Item? {
      NormalInOrder(items.head);
      NormalItemsInOrder(items.tail);
    }
  }

  lemma {:induction false} NormalMembersInOrder(ms: Members)
    requires WellFormedMembers(ms) && Sorted(ms)
    ensures InOrderMembers(NormalMembers(ms)) && WellFormedMembers(NormalMembers(ms))
    ensures NormalMembers(ms).Keys() == ms.Keys() && Sorted(NormalMembers(ms)) && NormalMembers(ms).Distinct()
    decreases MembersSize(ms)
  {
    if ms.Member? {
      NormalInOrder(ms.value);
      NormalMembersInOrder(ms.rest);
    }
  }

  lemma {:induction false} InOrderWellFormed(v: Json)
    requires InOrder(v)
    ensures WellFormed(v)
  {
    match v
    case Arr(items) => InOrderItemsWellFormed(items);
    case Obj(ms) => InOrderMembersWellFormed(ms);
    case _ =>
  }

  lemma {:induction false} InOrderItemsWellFormed(items: Items)
    requires InOrderItems(items)
    ensures WellFormedItems(items)
  {
    if items.Item? {
      InOrderWellFormed(items.head);
      InOrderItemsWellFormed(items.tail);
    }
  }

  lemma {:induction false} InOrderMembersWellFormed(ms: Members)
    requires InOrderMembers(ms)
    ensures WellFormedMembers(ms)
    ensures Sorted(ms) ==> ms.Distinct()
  {
    if ms.Member? {
      InOrderWellFormed(ms.value);
      InOrderMembersWellFormed(ms.rest);
    }
  }

  // Whether a value is spelled does not depend on the order it was built in.
  lemma {:induction false} SameSupport(w: Json, v: Json)
    requires WellFormed(v) && WellFormed(w) && Supported(w) && MeaningOf(w) == MeaningOf(v)
    ensures Supported(v)
    decreases Size(v)
  {
    match v
    case Arr(items) => SameItemsSupport(w.items, items);
    case Obj(ms) => SameMembersSupport(w.members, ms);
    case _ =>
  }

  lemma {:induction false} SameItemsSupport(ws: Items, vs: Items)
    requires WellFormedItems(vs) && WellFormedItems(ws) && SupportedItems(ws) && MeaningItems(ws) == MeaningItems(vs)
    ensures SupportedItems(vs)
    decreases ItemsSize(vs)
  {
    if vs.Item? {
      assert MeaningItems(ws)[0] == MeaningItems(vs)[0];
      assert MeaningItems(ws)[1..] == MeaningItems(ws.tail) && MeaningItems(vs)[1..] == MeaningItems(vs.tail);
      SameSupport(ws.head, vs.head);
      SameItemsSupport(ws.tail, vs.tail);
    }
  }

  lemma {:induction false} ValueAt(ms: Members, k: string) returns (v: Json)
    requires SupportedMembers(ms) && WellFormedMembers(ms) && k in MeaningMembers(ms)
    ensures Supported(v) && WellFormed(v) && MeaningOf(v) == MeaningMembers(ms)[k]
  {
    if ms.key == k {
      v := ms.value;
    } else {
      v := ValueAt(ms.rest, k);
    }
  }

  lemma {:induction false} SameMembersSupport(ws: Members, vs: Members)
    requires WellFormedMembers(vs) && vs.Distinct() && WellFormedMembers(ws) && SupportedMembers(ws)
    requires forall k :: k in MeaningMembers(vs) ==> k in MeaningMembers(ws) && MeaningMembers(ws)[k] == MeaningMembers(vs)[k]
    ensures SupportedMembers(vs)
    decreases MembersSize(vs)
  {
    if vs.Member? {
      assert vs.key in MeaningMembers(vs);
      var w := ValueAt(ws, vs.key);
      SameSupport(w, vs.value);
      SameMembersSupport(ws, vs.rest);
    }
  }

  // What the parser reads out of a text is v, its members in ascending order.
  predicate Reads(s: string, v: Json) {
    ParseValue(s).Some? && ParseValue(s).value.1 == ""
    && InOrder(ParseValue(s).value.0) && MeaningOf(ParseValue(s).value.0) == MeaningOf(v)
  }

  // Main result: the canonical text of a value is the one text the parser reads as
  // that value with every object's members in ascending order; without such a text
  // the value is refused.
  lemma CanonicalExactly(v: Json, s: string)
    requires WellFormed(v)
    ensures CanonicalText(v) == Some(s) <==> Reads(s, v)
  {
    if CanonicalText(v) == Some(s) {
      CanonicalRoundTrip(v);
      NormalInOrder(v);
      NormalMeaning(v);
    }
    if Reads(s, v) {
      var w := ParseValue(s).value.0;
      ValueSpelled(s, w, "");
      InOrderWellFormed(w);
      SameSupport(w, v);
      MeaningSpells(w, v);
      assert Spell(w) + "" == Spell(w);
    }
  }

  // ---- Key envelopes ----

  predicate SmallInt(v: Json) { v.Num? && 0 <= v.n < 0x8000_0000 }

  predicate AsciiStr(v: Json) { v.Str? && IsAscii(v.s) }

  predicate WrappedFields(ms: Members) {
    ms.Member? ==> IsAscii(ms.key) && (AsciiStr(ms.value) || SmallInt(ms.value)) && WrappedFields(ms.rest)
  }

  predicate EnvelopeEntries(ms: Members) {
    ms.Member? ==>
      && IsAscii(ms.key)
      && ms.value.Obj? && ms.value.members.Member? && WrappedFields(ms.value.members)
      && EnvelopeEntries(ms.rest)
  }

  // `check_envelope_shape`: true where the source returns without raising.
  predicate EnvelopeShape(keys: Json) {
    keys.Obj? && keys.members.Member? && EnvelopeEntries(keys.members)
  }

  lemma {:induction false} FieldsSupported(ms: Members)
    requires WrappedFields(ms)
    ensures SupportedMembers(ms)
  {
    if ms.Member? { FieldsSupported(ms.rest); }
  }

  lemma {:induction false} EntriesSupported(ms: Members)
    requires EnvelopeEntries(ms)
    ensures SupportedMembers(ms)
  {
    if ms.Member? {
      FieldsSupported(ms.value.members);
      EntriesSupported(ms.rest);
    }
  }

  // The shape check is enough: the spelling of an accepted envelope never raises.
  lemma EnvelopeSpells(keys: Json)
    requires EnvelopeShape(keys)
    ensures CanonicalText(keys).Some?
  {
    EntriesSupported(keys.members);
  }

  // ---- Redaction keys ----

  function StrItems(xs: seq<string>): Items {
    if xs == [] then NoItems else Item(Str(xs[0]), StrItems(xs[1..]))
  }

  lemma {:induction false} StrItemsFacts(xs: seq<string>)
    ensures SupportedItems(StrItems(xs)) && WellFormedItems(StrItems(xs))
    ensures |MeaningItems(StrItems(xs))| == |xs|
    ensures forall i :: 0 <= i < |xs| ==> MeaningItems(StrItems(xs))[i] == Scalar(Str(xs[i]))
  {
    if xs != [] { StrItemsFacts(xs[1..]); }
  }

  // The text both deletion bodies digest: `_canonical_json(sorted(redaction_keys))`.
  function RedactionKeysText(keys: seq<string>): string {
    StrItemsFacts(SortStrings(keys));
    Spell(Arr(StrItems(SortStrings(keys))))
  }

  lemma {:induction false} StrItemsNormal(xs: seq<string>)
    ensures NormalItems(StrItems(xs)) == StrItems(xs)
  {
    if xs != [] { StrItemsNormal(xs[1..]); }
  }

  // The digested text reads as the array of the keys, in ascending order.
  lemma RedactionKeysRead(keys: seq<string>)
    ensures exists xs :: Ascending(xs) && multiset(xs) == multiset(keys)
                && ParseValue(RedactionKeysText(keys)) == Some((Arr(StrItems(xs)), ""))
  {
    var xs := SortStrings(keys);
    SortAscending(keys);
    StrItemsFacts(xs);
    StrItemsNormal(xs);
    CanonicalRoundTrip(Arr(StrItems(xs)));
  }

  lemma StrItemsInjective(xs: seq<string>, ys: seq<string>)
    requires MeaningItems(StrItems(xs)) == MeaningItems(StrItems(ys))
    ensures xs == ys
  {
    StrItemsFacts(xs);
    StrItemsFacts(ys);
    forall i | 0 <= i < |xs| ensures xs[i] == ys[i] {
      assert Scalar(Str(xs[i])) == MeaningItems(StrItems(xs))[i] == Scalar(Str(ys[i]));
    }
  }

  // The sorted array determines the SET of keys, and the set determines it.
  lemma RedactionKeysDecided(a: seq<string>, b: seq<string>)
    requires NoRepeats(a) && NoRepeats(b)
    ensures RedactionKeysText(a) == RedactionKeysText(b) <==> SetOf(a) == SetOf(b)
  {
    SortDecidesSets(a, b);
    if RedactionKeysText(a) == RedactionKeysText(b) {
      StrItemsFacts(SortStrings(a));
      StrItemsFacts(SortStrings(b));
      ArrayDecided(SortStrings(a), SortStrings(b));
    }
  }

  lemma ArrayDecided(xs: seq<string>, ys: seq<string>)
    requires SupportedItems(StrItems(xs)) && SupportedItems(StrItems(ys))
    requires Spell(Arr(StrItems(xs))) == Spell(Arr(StrItems(ys)))
    ensures xs == ys
  {
    StrItemsFacts(xs);
    StrItemsFacts(ys);
    CanonicalDecides(Arr(StrItems(xs)), Arr(StrItems(ys)));
    StrItemsInjective(xs, ys);
  }
}
