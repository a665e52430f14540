/** Canonical serialization: one text per JSON value, whatever the key order. */
module CanonicalJson {
  import opened ConfigTree
  import opened Collections
  import opened Sorting

  /** A JavaScript value as the serializer meets it: object keys in insertion order. */
  datatype Value =
    | VNull
    | VBool(flag: bool)
    | VNumber(text: string)
    | VString(text: string)
    | VArray(items: seq<Value>)
    | VObject(entries: seq<Entry>)

  datatype Entry = Entry(key: string, value: Value)

  predicate IsNumberChar(c: char) {
    '0' <= c <= '9' || c == '-' || c == '+' || c == '.' || c == 'e' || c == 'E'
  }

  /** The shape of a JSON number's text. */
  predicate IsNumberText(s: string) {
    s != "" && (s[0] == '-' || '0' <= s[0] <= '9') && forall k | 0 <= k < |s| :: IsNumberChar(s[k])
  }

  /** Keys of an object are distinct, numbers have number texts. */
  predicate WellFormed(v: Value) {
    match v
    case VNumber(text) => IsNumberText(text)
    case VArray(items) => forall x | x in items :: WellFormed(x)
    case VObject(entries) =>
      && (forall i, j | 0 <= i < j < |entries| :: entries[i].key != entries[j].key)
      && (forall e | e in entries :: WellFormed(e.value))
    case _ => true
  }

  function Keys(entries: seq<Entry>): (ks: seq<string>)
    ensures |ks| == |entries| && forall i | 0 <= i < |ks| :: ks[i] == entries[i].key
  {
    if entries == [] then [] else [entries[0].key] + Keys(entries[1..])
  }

  /** `value[key]`: the entry's value (keys are distinct, so the first). */
  function Field(entries: seq<Entry>, key: string): (v: Value)
    requires key in Keys(entries)
    ensures exists e :: e in entries && e.key == key && e.value == v
  {
    if entries[0].key == key then entries[0].value else Field(entries[1..], key)
  }

  /** The JSON value meant: objects as maps. */
  ghost function Meaning(v: Value): Json {
    match v
    case VNull => Null
    case VBool(b) => Bool(b)
    case VNumber(t) => Number(t)
    case VString(t) => Str(t)
    case VArray(items) => Arr(Meanings(items))
    case VObject(entries) => Obj(map k | k in Keys(entries) :: Meaning(Field(entries, k)))
  }

  ghost function Meanings(items: seq<Value>): (ms: seq<Json>)
    ensures |ms| == |items|
  {
    if items == [] then [] else [Meaning(items[0])] + Meanings(items[1..])
  }

  // ---- The serializer ----

  function HexDigit(n: nat): char
    requires n < 16
  {
    if n < 10 then ('0' as int + n) as char else ('a' as int + n - 10) as char
  }

  /** One character of a JSON string (section 7 of RFC 8259), control characters in short or `\u` form. */
  function EscapeChar(c: char): (s: string)
    ensures s != "" && s[0] != '"'
  {
    if c == '"' then "\\\""
    else if c == '\\' then "\\\\"
    else if c == '\U{08}' then "\\b"
    else if c == '\U{0C}' then "\\f"
    else if c == '\n' then "\\n"
    else if c == '\r' then "\\r"
    else if c == '\t' then "\\t"
    else if c < ' ' then "\\u00" + [HexDigit(c as int / 16), HexDigit(c as int % 16)]
    else [c]
  }

  function EscapeText(s: string): string {
    if s == "" then "" else EscapeChar(s[0]) + EscapeText(s[1..])
  }

  function Quote(s: string): string {
    "\"" + EscapeText(s) + "\""
  }

  function Stringify(v: Value): string
    decreases v, 0
  {
    match v
    case VNull => "null"
    case VBool(b) => if b then "true" else "false"
    case VNumber(t) => t
    case VString(t) => Quote(t)
    case VArray(items) => "[" + JoinItems(items) + "]"
    case VObject(entries) =>
      SortKeeps(Keys(entries));
      "{" + JoinMembers(Sort(Keys(entries)), entries) + "}"
  }

  function JoinItems(items: seq<Value>): string
    decreases items, 0
  {
    if items == [] then ""
    else if |items| == 1 then Stringify(items[0])
    else Stringify(items[0]) + "," + JoinItems(items[1..])
  }

  function JoinMembers(keys: seq<string>, entries: seq<Entry>): string
    requires forall k | k in keys :: k in Keys(entries)
    decreases entries, |keys|
  {
    if keys == [] then ""
    else
      var member := Quote(keys[0]) + ":" + Stringify(Field(entries, keys[0]));
      if |keys| == 1 then member else member + "," + JoinMembers(keys[1..], entries)
  }

  // ---- Order-blindness ----

  lemma {:induction false} DistinctCount(ks: seq<string>)
    requires Distinct(ks)
    ensures forall k :: multiset(ks)[k] == if k in ks then 1 else 0
  {
    if ks != [] {
      assert ks == [ks[0]] + ks[1..];
      DistinctCount(ks[1..]);
    }
  }

  lemma SameSetSameSort(a: seq<string>, b: seq<string>)
    requires Distinct(a) && Distinct(b) && forall k :: k in a <==> k in b
    ensures Sort(a) == Sort(b)
  {
    DistinctCount(a);
    DistinctCount(b);
    assert multiset(a) == multiset(b);
    SortExact(a, b);
  }

  lemma {:induction false} ObjectMeaning(entries: seq<Entry>)
    ensures Meaning(VObject(entries)).fields.Keys == set k | k in Keys(entries)
    ensures forall k | k in Keys(entries) :: Meaning(VObject(entries)).fields[k] == Meaning(Field(entries, k))
  {
  }

  lemma {:induction false} FieldWellFormed(entries: seq<Entry>, key: string)
    requires WellFormed(VObject(entries)) && key in Keys(entries)
    ensures WellFormed(Field(entries, key)) && Field(entries, key) < VObject(entries)
  {
  }

  /** Values that mean the same serialize the same. */
  lemma {:induction false} OrderBlind(a: Value, b: Value)
    requires WellFormed(a) && WellFormed(b) && Meaning(a) == Meaning(b)
    ensures Stringify(a) == Stringify(b)
    decreases a, 1
  {
    match a
    case VArray(items) => ItemsOrderBlind(items, b.items);
    case VObject(entries) => ObjectOrderBlind(entries, b);
    case _ =>
  }

  lemma {:induction false} ItemsOrderBlind(a: seq<Value>, b: seq<Value>)
    requires (forall x | x in a :: WellFormed(x)) && (forall x | x in b :: WellFormed(x)) && Meanings(a) == Meanings(b)
    ensures JoinItems(a) == JoinItems(b)
    decreases a, 0
  {
    assert |Meanings(a)| == |Meanings(b)|;
    if a != [] {
      assert Meanings(a)[0] == Meanings(b)[0] && Meanings(a)[1..] == Meanings(b)[1..];
      OrderBlind(a[0], b[0]);
      ItemsOrderBlind(a[1..], b[1..]);
    }
  }

  lemma {:induction false} ObjectOrderBlind(a: seq<Entry>, b: Value)
    requires WellFormed(VObject(a)) && WellFormed(b) && Meaning(VObject(a)) == Meaning(b)
    ensures Stringify(VObject(a)) == Stringify(b)
    decreases VObject(a), 0
  {
    ObjectMeaning(a);
    ObjectMeaning(b.entries);
    assert forall k :: k in Keys(a) <==> k in Meaning(b).fields.Keys;
    SameSetSameSort(Keys(a), Keys(b.entries));
    SortKeeps(Keys(a));
    SortKeeps(Keys(b.entries));
    forall k | k in Keys(a) ensures Stringify(Field(a, k)) == Stringify(Field(b.entries, k)) {
      FieldWellFormed(a, k);
      FieldWellFormed(b.entries, k);
      OrderBlind(Field(a, k), Field(b.entries, k));
    }
    SameMemberTexts(Sort(Keys(a)), a, b.entries);
  }

  lemma {:induction false} SameMemberTexts(keys: seq<string>, a: seq<Entry>, b: seq<Entry>)
    requires forall k | k in keys :: k in Keys(a) && k in Keys(b) && Stringify(Field(a, k)) == Stringify(Field(b, k))
    ensures JoinMembers(keys, a) == JoinMembers(keys, b)
  {
    if keys != [] { SameMemberTexts(keys[1..], a, b); }
  }

  // ---- Injectivity: a text determines the value it starts with ----

  /** What may follow a value: the end, or a separator. */
  predicate Delimited(rest: string) {
    rest == "" || rest[0] == ',' || rest[0] == ']' || rest[0] == '}'
  }

  lemma {:induction false} EscapeCharSplit(c: char, x: string, d: char, y: string)
    requires EscapeChar(c) + x == EscapeChar(d) + y
    ensures c == d && x == y
  {
    var s, t := EscapeChar(c), EscapeChar(d);
    assert s[0] == (s + x)[0] == (t + y)[0] == t[0];
    if s[0] == '\\' {
      assert s[1] == (s + x)[1] == (t + y)[1] == t[1];
      if |s| == 6 && |t| == 6 {
        assert s[4] == (s + x)[4] == (t + y)[4] == t[4];
        assert s[5] == (s + x)[5] == (t + y)[5] == t[5];
      }
    }
    assert |s| == |t|;
    assert x == (s + x)[|s|..] == (t + y)[|t|..] == y;
  }

  lemma {:induction false} EscapeTextSplit(s: string, x: string, t: string, y: string)
    requires EscapeText(s) + ("\"" + x) == EscapeText(t) + ("\"" + y)
    ensures s == t && x == y
    decreases |s|
  {
    var l, r := EscapeText(s) + ("\"" + x), EscapeText(t) + ("\"" + y);
    EscapeTextHead(s, x);
    EscapeTextHead(t, y);
    if s == "" || t == "" {
      assert s == "" && t == "";
      assert x == ("\"" + x)[1..] == ("\"" + y)[1..] == y;
    } else {
      EscapeCharSplit(s[0], EscapeText(s[1..]) + ("\"" + x), t[0], EscapeText(t[1..]) + ("\"" + y));
      EscapeTextSplit(s[1..], x, t[1..], y);
      assert s == [s[0]] + s[1..] && t == [t[0]] + t[1..];
    }
  }

  lemma {:induction false} EscapeTextHead(s: string, x: string)
    ensures var l := EscapeText(s) + ("\"" + x);
            if s == "" then l == "\"" + x
            else l == EscapeChar(s[0]) + (EscapeText(s[1..]) + ("\"" + x)) && l[0] != '"'
  {
  }

  lemma {:induction false} QuoteSplit(s: string, x: string, t: string, y: string)
    requires Quote(s) + x == Quote(t) + y
    ensures s == t && x == y
  {
    var l, r := EscapeText(s) + ("\"" + x), EscapeText(t) + ("\"" + y);
    assert Quote(s) + x == "\"" + l && Quote(t) + y == "\"" + r;
    assert l == ("\"" + l)[1..] == ("\"" + r)[1..] == r;
    EscapeTextSplit(s, x, t, y);
  }

  lemma {:induction false} NumberSplit(s: string, x: string, t: string, y: string)
    requires (forall k | 0 <= k < |s| :: IsNumberChar(s[k])) && (forall k | 0 <= k < |t| :: IsNumberChar(t[k]))
    requires Delimited(x) && Delimited(y) && s + x == t + y
    ensures s == t && x == y
  {
    var z := s + x;
    assert forall k | 0 <= k < |s| :: IsNumberChar(z[k]);
    assert forall k | 0 <= k < |t| :: IsNumberChar((t + y)[k]);
    assert |s| < |z| ==> !IsNumberChar(z[|s|]);
    assert |t| < |z| ==> !IsNumberChar((t + y)[|t|]);
    assert |s| == |t|;
    assert s == (s + x)[..|s|] == (t + y)[..|t|] == t;
    assert x == (s + x)[|s|..] == (t + y)[|t|..] == y;
  }

  /** The array text after its first item. */
  function AfterItem(items: seq<Value>, rest: string): string {
    if items == [] then "]" + rest else "," + (JoinItems(items) + "]" + rest)
  }

  lemma {:induction false} ItemsUnfold(items: seq<Value>, rest: string)
    requires items != []
    ensures JoinItems(items) + "]" + rest == Stringify(items[0]) + AfterItem(items[1..], rest)
  {
    if |items| > 1 {
      var first, others := Stringify(items[0]), JoinItems(items[1..]);
      assert first + "," + others + "]" + rest == first + ("," + (others + "]" + rest));
    } else {
      assert items[1..] == [];
    }
  }

  /** The object text after its first member. */
  function AfterMember(keys: seq<string>, entries: seq<Entry>, rest: string): string
    requires forall k | k in keys :: k in Keys(entries)
  {
    if keys == [] then "}" + rest else "," + (JoinMembers(keys, entries) + "}" + rest)
  }

  lemma {:induction false} MembersUnfold(keys: seq<string>, entries: seq<Entry>, rest: string)
    requires keys != [] && forall k | k in keys :: k in Keys(entries)
    ensures JoinMembers(keys, entries) + "}" + rest ==
            Quote(keys[0]) + (":" + (Stringify(Field(entries, keys[0])) + AfterMember(keys[1..], entries, rest)))
  {
    var quoted, first := Quote(keys[0]), Stringify(Field(entries, keys[0]));
    if |keys| > 1 {
      Reassociate(quoted + ":" + first, ",", JoinMembers(keys[1..], entries), "}", rest);
      Nest(quoted, ":", first, AfterMember(keys[1..], entries, rest));
    } else {
      Nest(quoted, ":", first, AfterMember(keys[1..], entries, rest));
      assert quoted + ":" + first + "}" + rest == quoted + ":" + first + ("}" + rest);
    }
  }

  lemma Reassociate(m: string, comma: string, o: string, brace: string, rest: string)
    ensures m + comma + o + brace + rest == m + (comma + (o + brace + rest))
  {
  }

  lemma Nest(q: string, colon: string, f: string, rest: string)
    ensures q + colon + f + rest == q + (colon + (f + rest))
  {
  }

  /** The first character of a serialized value tells its kind. */
  function Lead(v: Value): (c: char)
    requires WellFormed(v)
  {
    match v
    case VNull => 'n'
    case VBool(b) => if b then 't' else 'f'
    case VNumber(t) => t[0]
    case VString(_) => '"'
    case VArray(_) => '['
    case VObject(_) => '{'
  }

  lemma {:induction false} LeadFirst(v: Value, rest: string)
    requires WellFormed(v)
    ensures Stringify(v) != "" && (Stringify(v) + rest)[0] == Lead(v)
  {
  }

  /** Serialized values followed by delimited texts: equal texts, equal meanings and equal rests. */
  lemma {:induction false} Split(a: Value, x: string, b: Value, y: string)
    requires WellFormed(a) && WellFormed(b) && Delimited(x) && Delimited(y) && Stringify(a) + x == Stringify(b) + y
    ensures Meaning(a) == Meaning(b) && x == y
    decreases a, 1
  {
    LeadFirst(a, x);
    LeadFirst(b, y);
    assert Lead(a) == Lead(b);
    match a
    case VNull => assert x == (Stringify(a) + x)[4..] == (Stringify(b) + y)[4..] == y;
    case VBool(flag) =>
      var n := |Stringify(a)|;
      assert x == (Stringify(a) + x)[n..] == (Stringify(b) + y)[n..] == y;
    case VNumber(t) => NumberSplit(t, x, b.text, y);
    case VString(t) => QuoteSplit(t, x, b.text, y);
    case VArray(items) => ArraySplit(items, x, b.items, y);
    case VObject(entries) => ObjectSplit(entries, x, b.entries, y);
  }

  lemma {:induction false} ArraySplit(a: seq<Value>, x: string, b: seq<Value>, y: string)
    requires WellFormed(VArray(a)) && WellFormed(VArray(b))
    requires Stringify(VArray(a)) + x == Stringify(VArray(b)) + y
    ensures Meanings(a) == Meanings(b) && x == y
    decreases a, 1
  {
    var l, r := JoinItems(a) + "]" + x, JoinItems(b) + "]" + y;
    assert Stringify(VArray(a)) + x == "[" + l && Stringify(VArray(b)) + y == "[" + r;
    assert l == ("[" + l)[1..] == ("[" + r)[1..] == r;
    if a != [] { ItemsUnfold(a, x); LeadFirst(a[0], AfterItem(a[1..], x)); }
    if b != [] { ItemsUnfold(b, y); LeadFirst(b[0], AfterItem(b[1..], y)); }
    if a == [] || b == [] {
      assert a == [] && b == [];
      assert l == "]" + x && r == "]" + y;
      assert x == l[1..] == r[1..] == y;
    } else {
      ItemsSplit(a, x, b, y);
    }
  }

  lemma {:induction false} ItemsSplit(a: seq<Value>, x: string, b: seq<Value>, y: string)
    requires a != [] && b != [] && (forall v | v in a :: WellFormed(v)) && (forall v | v in b :: WellFormed(v))
    requires JoinItems(a) + "]" + x == JoinItems(b) + "]" + y
    ensures Meanings(a) == Meanings(b) && x == y
    decreases a, 0
  {
    ItemsUnfold(a, x);
    ItemsUnfold(b, y);
    var l, r := AfterItem(a[1..], x), AfterItem(b[1..], y);
    Split(a[0], l, b[0], r);
    assert l[1..] == r[1..];
    if a[1..] == [] || b[1..] == [] {
      assert l[0] == r[0];
      assert l[1..] == x && r[1..] == y;
    } else {
      assert l[1..] == JoinItems(a[1..]) + "]" + x && r[1..] == JoinItems(b[1..]) + "]" + y;
      ItemsSplit(a[1..], x, b[1..], y);
    }
  }

  lemma {:induction false} ObjectSplit(a: seq<Entry>, x: string, b: seq<Entry>, y: string)
    requires WellFormed(VObject(a)) && WellFormed(VObject(b))
    requires Stringify(VObject(a)) + x == Stringify(VObject(b)) + y
    ensures Meaning(VObject(a)) == Meaning(VObject(b)) && x == y
    decreases VObject(a), 0
  {
    SortKeeps(Keys(a));
    SortKeeps(Keys(b));
    var ka, kb := Sort(Keys(a)), Sort(Keys(b));
    ObjectText(a, x);
    ObjectText(b, y);
    assert ObjectBody(a, x) == (Stringify(VObject(a)) + x)[1..] == (Stringify(VObject(b)) + y)[1..] == ObjectBody(b, y);
    if ka == [] || kb == [] {
      assert ka == [] && kb == [];
      assert x == ObjectBody(a, x)[1..] == ObjectBody(b, y)[1..] == y;
    } else {
      MembersSplit(ka, a, x, kb, b, y);
    }
    SameMeaning(a, b);
  }

  /** The text of an object after its brace, with what follows it. */
  function ObjectBody(entries: seq<Entry>, rest: string): string {
    SortKeeps(Keys(entries));
    JoinMembers(Sort(Keys(entries)), entries) + "}" + rest
  }

  lemma {:induction false} ObjectText(entries: seq<Entry>, rest: string)
    ensures var whole, body := Stringify(VObject(entries)) + rest, ObjectBody(entries, rest);
            && whole != "" && whole[1..] == body && body != ""
            && (if Sort(Keys(entries)) == [] then body[0] == '}' && body[1..] == rest else body[0] == '"')
  {
    SortKeeps(Keys(entries));
    var keys := Sort(Keys(entries));
    Braced(JoinMembers(keys, entries), rest);
    if keys == [] {
      assert "" + "}" + rest == "}" + rest;
    } else {
      MembersUnfold(keys, entries, rest);
      QuoteFirst(keys[0], ":" + (Stringify(Field(entries, keys[0])) + AfterMember(keys[1..], entries, rest)));
    }
  }

  lemma Braced(inner: string, rest: string)
    ensures ("{" + inner + "}" + rest)[1..] == inner + "}" + rest
  {
  }

  lemma QuoteFirst(s: string, rest: string)
    ensures Quote(s) + rest != "" && (Quote(s) + rest)[0] == '"'
  {
  }

  lemma {:induction false} SameMeaning(a: seq<Entry>, b: seq<Entry>)
    requires Sort(Keys(a)) == Sort(Keys(b))
    requires forall k | k in Sort(Keys(a)) && k in Keys(a) && k in Keys(b) ::
             Meaning(Field(a, k)) == Meaning(Field(b, k))
    ensures Meaning(VObject(a)) == Meaning(VObject(b))
  {
    SortKeeps(Keys(a));
    SortKeeps(Keys(b));
    ObjectMeaning(a);
    ObjectMeaning(b);
    assert Meaning(VObject(a)).fields == Meaning(VObject(b)).fields;
  }

  lemma {:induction false} MembersSplit(ka: seq<string>, a: seq<Entry>, x: string, kb: seq<string>, b: seq<Entry>,
                                        y: string)
    requires WellFormed(VObject(a)) && WellFormed(VObject(b)) && ka != [] && kb != []
    requires (forall k | k in ka :: k in Keys(a)) && (forall k | k in kb :: k in Keys(b))
    requires JoinMembers(ka, a) + "}" + x == JoinMembers(kb, b) + "}" + y
    ensures ka == kb && x == y
    ensures forall k | k in ka && k in Keys(b) :: Meaning(Field(a, k)) == Meaning(Field(b, k))
    decreases a, |ka| + 1
  {
    HeadsSplit(ka, a, x, kb, b, y);
    AfterSplit(ka[1..], a, x, kb[1..], b, y);
    if ka[1..] != [] {
      MembersSplit(ka[1..], a, x, kb[1..], b, y);
    }
    assert ka == [ka[0]] + ka[1..] && kb == [kb[0]] + kb[1..];
    forall k | k in ka && k in Keys(b) ensures Meaning(Field(a, k)) == Meaning(Field(b, k)) {
      assert k == ka[0] || k in ka[1..];
    }
  }

  lemma {:induction false} HeadsSplit(ka: seq<string>, a: seq<Entry>, x: string, kb: seq<string>, b: seq<Entry>,
                                      y: string)
    requires WellFormed(VObject(a)) && WellFormed(VObject(b)) && ka != [] && kb != []
    requires (forall k | k in ka :: k in Keys(a)) && (forall k | k in kb :: k in Keys(b))
    requires JoinMembers(ka, a) + "}" + x == JoinMembers(kb, b) + "}" + y
    ensures ka[0] == kb[0] && AfterMember(ka[1..], a, x) == AfterMember(kb[1..], b, y)
    ensures Meaning(Field(a, ka[0])) == Meaning(Field(b, kb[0]))
    decreases a, 1
  {
    MembersUnfold(ka, a, x);
    MembersUnfold(kb, b, y);
    AfterMemberText(ka[1..], a, x);
    AfterMemberText(kb[1..], b, y);
    MemberSplit(ka[0], a, AfterMember(ka[1..], a, x), kb[0], b, AfterMember(kb[1..], b, y));
  }

  /** Both texts end here, or both go on to a next member. */
  lemma {:induction false} AfterSplit(ka: seq<string>, a: seq<Entry>, x: string, kb: seq<string>, b: seq<Entry>,
                                      y: string)
    requires (forall k | k in ka :: k in Keys(a)) && (forall k | k in kb :: k in Keys(b))
    requires AfterMember(ka, a, x) == AfterMember(kb, b, y)
    ensures ka == [] <==> kb == []
    ensures if ka == [] then x == y else JoinMembers(ka, a) + "}" + x == JoinMembers(kb, b) + "}" + y
  {
    AfterMemberText(ka, a, x);
    AfterMemberText(kb, b, y);
  }

  lemma AfterMemberText(keys: seq<string>, entries: seq<Entry>, rest: string)
    requires forall k | k in keys :: k in Keys(entries)
    ensures var after := AfterMember(keys, entries, rest);
            && Delimited(after) && after != ""
            && (if keys == [] then after[0] == '}' && after[1..] == rest
                else after[0] == ',' && after[1..] == JoinMembers(keys, entries) + "}" + rest)
  {
  }

  lemma {:induction false} MemberSplit(k: string, a: seq<Entry>, l: string, m: string, b: seq<Entry>, r: string)
    requires WellFormed(VObject(a)) && WellFormed(VObject(b)) && k in Keys(a) && m in Keys(b)
             && Delimited(l) && Delimited(r)
    requires Quote(k) + (":" + (Stringify(Field(a, k)) + l)) == Quote(m) + (":" + (Stringify(Field(b, m)) + r))
    ensures k == m && l == r && Meaning(Field(a, k)) == Meaning(Field(b, m))
    decreases a, 0
  {
    var v, w := Stringify(Field(a, k)) + l, Stringify(Field(b, m)) + r;
    QuoteSplit(k, ":" + v, m, ":" + w);
    assert v == (":" + v)[1..] == (":" + w)[1..] == w;
    FieldWellFormed(a, k);
    FieldWellFormed(b, m);
    Split(Field(a, k), l, Field(b, m), r);
  }

  // ---- Main result ----

  /** Same text exactly when same JSON value; so with a collision-free hash, same hash. */
  lemma {:induction false} CanonicalExact(a: Value, b: Value)
    requires WellFormed(a) && WellFormed(b)
    ensures Stringify(a) == Stringify(b) <==> Meaning(a) == Meaning(b)
  {
    if Stringify(a) == Stringify(b) {
      assert Stringify(a) + "" == Stringify(b) + "";
      Split(a, "", b, "");
    }
    if Meaning(a) == Meaning(b) { OrderBlind(a, b); }
  }

  /** Effective hashes agree exactly when configurations do, if the digest has no collisions. */
  lemma HashExact(digest: string -> string, a: Value, b: Value)
    requires WellFormed(a) && WellFormed(b)
    requires forall s, t :: digest(s) == digest(t) ==> s == t
    ensures digest(Stringify(a)) == digest(Stringify(b)) <==> Meaning(a) == Meaning(b)
  {
    CanonicalExact(a, b);
  }
}
