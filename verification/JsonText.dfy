/** The canonical text read as JSON (RFC 8259) by an independent definition of what a text denotes. */
module JsonText {
  import opened Wrappers
  import opened Collections
  import opened Sorting
  import opened TextFacts
  import opened ConfigTree
  import opened CanonicalJson

  // ---- Strings ----

  function HexValue(c: char): Option<nat> {
    if '0' <= c <= '9' then Some(c as int - '0' as int)
    else if 'a' <= c <= 'f' then Some(c as int - 'a' as int + 10)
    else if 'A' <= c <= 'F' then Some(c as int - 'A' as int + 10)
    else None
  }

  /** The character a two-character escape of section 7 of RFC 8259 stands for. */
  function ShortEscape(c: char): Option<char> {
    match c
    case '"' => Some('"')
    case '\\' => Some('\\')
    case '/' => Some('/')
    case 'b' => Some('\U{08}')
    case 'f' => Some('\U{0C}')
    case 'n' => Some('\n')
    case 'r' => Some('\r')
    case 't' => Some('\t')
    case _ => None
  }

  /** The text between the quotes of a JSON string, decoded; only escapes below `\u0100` are needed here. */
  function Decoded(body: string): Option<string> {
    if body == "" then Some("")
    else if body[0] == '"' || body[0] < ' ' then None
    else if body[0] != '\\' then
      var rest :- Decoded(body[1..]);
      Some([body[0]] + rest)
    else if |body| > 1 && ShortEscape(body[1]).Some? then
      var rest :- Decoded(body[2..]);
      Some([ShortEscape(body[1]).value] + rest)
    else if |body| > 5 && body[1..4] == "u00" && HexValue(body[4]).Some? && HexValue(body[5]).Some? then
      var rest :- Decoded(body[6..]);
      Some([(16 * HexValue(body[4]).value + HexValue(body[5]).value) as char] + rest)
    else None
  }

  lemma {:induction false} EscapeDecodes(c: char, rest: string)
    requires Decoded(rest).Some?
    ensures Decoded(EscapeChar(c) + rest) == Some([c] + Decoded(rest).value)
  {
    var e := EscapeChar(c);
    var body := e + rest;
    if |e| == 1 {
      assert body[1..] == rest;
    } else if |e| == 2 {
      assert body[2..] == rest;
    } else {
      ControlDecodes(c, rest);
    }
  }

  lemma {:induction false} ControlDecodes(c: char, rest: string)
    requires c < ' ' && Decoded(rest).Some?
    ensures Decoded("\\u00" + [HexDigit(c as int / 16), HexDigit(c as int % 16)] + rest)
            == Some([c] + Decoded(rest).value)
  {
    var body := "\\u00" + [HexDigit(c as int / 16), HexDigit(c as int % 16)] + rest;
    assert body[1..4] == "u00" && body[6..] == rest;
    assert HexValue(body[4]) == Some(c as int / 16) && HexValue(body[5]) == Some(c as int % 16);
  }

  /** Control characters without a short escape are written with lower-case digits. */
  lemma {:induction false} ControlsInLowerCase(c: char)
    requires c < ' ' && c !in "\U{08}\t\n\U{0C}\r"
    ensures EscapeChar(c) == "\\u00" + ["01"[c as int / 16], "0123456789abcdef"[c as int % 16]]
  {
    assert "\U{08}\t\n\U{0C}\r"[0] == '\U{08}' && "\U{08}\t\n\U{0C}\r"[1] == '\t';
    assert "\U{08}\t\n\U{0C}\r"[2] == '\n' && "\U{08}\t\n\U{0C}\r"[3] == '\U{0C}';
    assert "\U{08}\t\n\U{0C}\r"[4] == '\r';
  }

  lemma {:induction false} EscapedTextDecodes(s: string)
    ensures Decoded(EscapeText(s)) == Some(s)
  {
    if s != "" {
      EscapedTextDecodes(s[1..]);
      EscapeDecodes(s[0], EscapeText(s[1..]));
      assert [s[0]] + s[1..] == s;
    }
  }

  // ---- Values ----

  predicate DenotesString(text: string, s: string) {
    |text| >= 2 && text[0] == '"' && text[|text| - 1] == '"' && Decoded(text[1..|text| - 1]) == Some(s)
  }

  /** The text is the JSON of the value without white space, the members of every object sorted by key. */
  ghost predicate Denotes(text: string, j: Json)
    decreases j, 1
  {
    match j
    case Null => text == "null"
    case Bool(b) => text == if b then "true" else "false"
    case Number(t) => text == t
    case Str(s) => DenotesString(text, s)
    case Arr(items) =>
      exists parts: seq<string> :: |parts| == |items| && text == "[" + JoinWith(parts, ",") + "]"
        && forall i | 0 <= i < |items| :: Denotes(parts[i], items[i])
    case Obj(fields) =>
      exists keys: seq<string>, parts: seq<string> ::
        SortedKeys(keys, fields) && text == "{" + JoinWith(parts, ",") + "}" && DenoteMembers(parts, keys, fields)
  }

  ghost predicate SortedKeys(keys: seq<string>, fields: map<string, Json>) {
    Sorted(keys) && Distinct(keys) && forall k :: k in keys <==> k in fields
  }

  ghost predicate DenoteMembers(parts: seq<string>, keys: seq<string>, fields: map<string, Json>)
    decreases Obj(fields), 0
  {
    |parts| == |keys|
    && forall i | 0 <= i < |keys| :: keys[i] in fields && DenotesMember(parts[i], keys[i], fields[keys[i]])
  }

  ghost predicate DenotesMember(text: string, key: string, value: Json)
    decreases value, 2
  {
    exists name, rest :: text == name + ":" + rest && DenotesString(name, key) && Denotes(rest, value)
  }

  lemma {:induction false} QuoteDenotes(s: string)
    ensures DenotesString(Quote(s), s)
  {
    EscapedTextDecodes(s);
    assert Quote(s)[1..|Quote(s)| - 1] == EscapeText(s);
  }

  function Texts(items: seq<Value>): (texts: seq<string>)
    ensures |texts| == |items| && forall i | 0 <= i < |items| :: texts[i] == Stringify(items[i])
  {
    if items == [] then [] else [Stringify(items[0])] + Texts(items[1..])
  }

  lemma {:induction false} ItemsJoined(items: seq<Value>)
    ensures JoinItems(items) == JoinWith(Texts(items), ",")
  {
    if |items| > 1 { ItemsJoined(items[1..]); }
  }

  lemma {:induction false} MeaningAt(items: seq<Value>, i: nat)
    requires i < |items|
    ensures Meanings(items)[i] == Meaning(items[i])
  {
    if i > 0 { MeaningAt(items[1..], i - 1); }
  }

  function MemberText(key: string, entries: seq<Entry>): string
    requires key in Keys(entries)
  {
    Quote(key) + ":" + Stringify(Field(entries, key))
  }

  function MemberTexts(keys: seq<string>, entries: seq<Entry>): (texts: seq<string>)
    requires forall k | k in keys :: k in Keys(entries)
    ensures |texts| == |keys| && forall i | 0 <= i < |keys| :: texts[i] == MemberText(keys[i], entries)
  {
    if keys == [] then [] else [MemberText(keys[0], entries)] + MemberTexts(keys[1..], entries)
  }

  lemma {:induction false} MembersJoined(keys: seq<string>, entries: seq<Entry>)
    requires forall k | k in keys :: k in Keys(entries)
    ensures JoinMembers(keys, entries) == JoinWith(MemberTexts(keys, entries), ",")
  {
    if |keys| > 1 { MembersJoined(keys[1..], entries); }
  }

  lemma {:induction false} KeysSorted(entries: seq<Entry>)
    requires WellFormed(VObject(entries))
    ensures SortedKeys(Sort(Keys(entries)), Meaning(VObject(entries)).fields)
  {
    SortSorts(Keys(entries));
    SortKeeps(Keys(entries));
    ObjectMeaning(entries);
    SameCountDistinct(Keys(entries), Sort(Keys(entries)));
  }

  lemma {:induction false} SameCountDistinct(a: seq<string>, b: seq<string>)
    requires Distinct(a) && multiset(a) == multiset(b)
    ensures Distinct(b)
  {
    DistinctCount(a);
    forall i, j | 0 <= i < j < |b| ensures b[i] != b[j] {
      if b[i] == b[j] { TwiceInSeq(b, i, j); }
    }
  }

  lemma {:induction false} TwiceInSeq(s: seq<string>, i: nat, j: nat)
    requires i < j < |s| && s[i] == s[j]
    ensures multiset(s)[s[i]] >= 2
  {
    assert s == s[..j] + s[j..] && s[i] in s[..j] && s[j] in s[j..];
    assert multiset(s) == multiset(s[..j]) + multiset(s[j..]);
  }

  /** The canonical text of a value is JSON for that value, with sorted keys and no white space. */
  lemma {:induction false} CanonicalTextDenotes(v: Value)
    requires WellFormed(v)
    ensures Denotes(Stringify(v), Meaning(v))
    decreases v, 1
  {
    match v
    case VString(t) => QuoteDenotes(t);
    case VArray(items) =>
      ItemsJoined(items);
      forall i | 0 <= i < |items| ensures Denotes(Texts(items)[i], Meanings(items)[i]) {
        MeaningAt(items, i);
        CanonicalTextDenotes(items[i]);
      }
    case VObject(entries) => ObjectDenotes(entries);
    case _ =>
  }

  lemma {:induction false} ObjectDenotes(entries: seq<Entry>)
    requires WellFormed(VObject(entries))
    ensures Denotes(Stringify(VObject(entries)), Meaning(VObject(entries)))
    decreases VObject(entries), 0
  {
    var keys := Sort(Keys(entries));
    SortKeeps(Keys(entries));
    KeysSorted(entries);
    MembersJoined(keys, entries);
    MembersDenote(keys, entries);
    ObjectMeans(Stringify(VObject(entries)), keys, MemberTexts(keys, entries), Meaning(VObject(entries)));
  }

  lemma {:induction false} ObjectMeans(text: string, keys: seq<string>, parts: seq<string>, j: Json)
    requires j.Obj? && SortedKeys(keys, j.fields) && DenoteMembers(parts, keys, j.fields)
    requires text == "{" + JoinWith(parts, ",") + "}"
    ensures Denotes(text, j)
  {
  }

  lemma {:induction false} MembersDenote(keys: seq<string>, entries: seq<Entry>)
    requires WellFormed(VObject(entries)) && forall k | k in keys :: k in Keys(entries)
    ensures DenoteMembers(MemberTexts(keys, entries), keys, Meaning(VObject(entries)).fields)
    decreases VObject(entries), -1
  {
    ObjectMeaning(entries);
    forall i | 0 <= i < |keys|
      ensures keys[i] in Keys(entries)
      ensures DenotesMember(MemberText(keys[i], entries), keys[i], Meaning(Field(entries, keys[i])))
    {
      FieldWellFormed(entries, keys[i]);
      CanonicalTextDenotes(Field(entries, keys[i]));
      QuoteDenotes(keys[i]);
    }
  }
}
