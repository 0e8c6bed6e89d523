/**
 The key-order-independent serialization behind the "unsaved changes" check. Strings are sequences
 of UTF-16 code units, as in JavaScript, and are escaped as section 7 of RFC 8259 requires.
 */
module StableStringify {
  import opened Wrappers

  type Unit = u: int | 0 <= u < 0x1_0000
  type JsString = seq<Unit>

  const QUOTE: Unit := 34
  const COMMA: Unit := 44
  const COLON: Unit := 58
  const BACKSLASH: Unit := 92
  const LBRACKET: Unit := 91
  const RBRACKET: Unit := 93
  const LBRACE: Unit := 123
  const RBRACE: Unit := 125
  const NULL_TEXT: JsString := [110, 117, 108, 108]
  const TRUE_TEXT: JsString := [116, 114, 117, 101]
  const FALSE_TEXT: JsString := [102, 97, 108, 115, 101]

  /** Digits, sign, point and exponent marker. */
  predicate IsNumeric(u: Unit) {
    48 <= u <= 57 || u in {43, 45, 46, 101}
  }

  /** The decimal text JavaScript prints for a finite number; negative zero prints like zero. */
  type NumberText = t: JsString |
      t != [] && (48 <= t[0] <= 57 || t[0] == 45) && forall i :: 0 <= i < |t| ==> IsNumeric(t[i])
    witness [48]

  datatype Value =
    | Undefined
    | Null
    | NonFinite
    | Bool(b: bool)
    | Number(text: NumberText)
    | Str(s: JsString)
    | Arr(items: seq<Value>)
    | Rec(entries: seq<Entry>)

  datatype Entry = Entry(key: JsString, value: Value)

  /** Objects have no key twice. */
  ghost predicate WellFormed(v: Value) {
    match v
    case Arr(items) => forall i :: 0 <= i < |items| ==> WellFormed(items[i])
    case Rec(entries) =>
      && (forall i, j :: 0 <= i < j < |entries| ==> entries[i].key != entries[j].key)
      && (forall i :: 0 <= i < |entries| ==> WellFormed(entries[i].value))
    case _ => true
  }

  // ----- escaping -----

  function HexDigit(v: int): Unit
    requires 0 <= v < 16
  {
    if v < 10 then 48 + v else 87 + v
  }

  function UnicodeEscape(u: Unit): JsString {
    [BACKSLASH, 117, HexDigit(u / 4096), HexDigit(u / 256 % 16), HexDigit(u / 16 % 16), HexDigit(u % 16)]
  }

  predicate IsHigh(u: Unit) { 0xD800 <= u <= 0xDBFF }

  predicate IsLow(u: Unit) { 0xDC00 <= u <= 0xDFFF }

  function EscapeUnit(u: Unit): JsString {
    if u == 8 then [BACKSLASH, 98]
    else if u == 9 then [BACKSLASH, 116]
    else if u == 10 then [BACKSLASH, 110]
    else if u == 12 then [BACKSLASH, 102]
    else if u == 13 then [BACKSLASH, 114]
    else if u == QUOTE then [BACKSLASH, QUOTE]
    else if u == BACKSLASH then [BACKSLASH, BACKSLASH]
    else if u < 32 || IsHigh(u) || IsLow(u) then UnicodeEscape(u)
    else [u]
  }

  /** A surrogate pair is copied; anything else is escaped unit by unit. */
  predicate StartsWithPair(s: JsString) {
    |s| >= 2 && IsHigh(s[0]) && IsLow(s[1])
  }

  function Escape(s: JsString): JsString {
    if s == [] then []
    else if StartsWithPair(s) then s[..2] + Escape(s[2..])
    else EscapeUnit(s[0]) + Escape(s[1..])
  }

  function Quote(s: JsString): JsString {
    [QUOTE] + Escape(s) + [QUOTE]
  }

  // ----- the source's printer -----

  /** JavaScript's order of strings: by code unit, a proper prefix first. */
  predicate Less(a: JsString, b: JsString) {
    b != [] && (a == [] || a[0] < b[0] || (a[0] == b[0] && Less(a[1..], b[1..])))
  }

  function InsertKey(key: JsString, keys: seq<JsString>): seq<JsString> {
    if keys == [] || !Less(keys[0], key) then [key] + keys else [keys[0]] + InsertKey(key, keys[1..])
  }

  function SortKeys(keys: seq<JsString>): seq<JsString> {
    if keys == [] then [] else InsertKey(keys[0], SortKeys(keys[1..]))
  }

  function DefinedKeys(entries: seq<Entry>): seq<JsString> {
    if entries == [] then []
    else (if entries[0].value.Undefined? then [] else [entries[0].key]) + DefinedKeys(entries[1..])
  }

  /** Position of a key in an object. */
  function Find(entries: seq<Entry>, key: JsString): (r: Option<nat>)
    ensures r.Some? ==> r.value < |entries| && entries[r.value].key == key
  {
    if entries == [] then None
    else if entries[0].key == key then Some(0)
    else
      match Find(entries[1..], key)
      case Some(i) => Some(i + 1)
      case None => None
  }

  function Stringify(v: Value): JsString
    decreases v, 1, 0
  {
    match v
    case Arr(items) => [LBRACKET] + StringifyItems(v, 0) + [RBRACKET]
    case Rec(entries) => [LBRACE] + StringifyMembers(v, SortKeys(DefinedKeys(entries))) + [RBRACE]
    case Undefined => NULL_TEXT
    case Null => NULL_TEXT
    case NonFinite => NULL_TEXT
    case Bool(b) => if b then TRUE_TEXT else FALSE_TEXT
    case Number(text) => text
    case Str(s) => Quote(s)
  }

  /** The items from `i` on, separated by commas. */
  function StringifyItems(v: Value, i: nat): JsString
    requires v.Arr? && i <= |v.items|
    decreases v, 0, |v.items| - i
  {
    if i == |v.items| then []
    else Stringify(v.items[i]) + (if i + 1 == |v.items| then [] else [COMMA] + StringifyItems(v, i + 1))
  }

  /** The members named by `keys`, separated by commas; a missing key reads as undefined. */
  function StringifyMembers(v: Value, keys: seq<JsString>): JsString
    requires v.Rec?
    decreases v, 0, |keys|
  {
    if keys == [] then []
    else
      var here := match Find(v.entries, keys[0]) case Some(i) => Stringify(v.entries[i].value) case None => NULL_TEXT;
      Quote(keys[0]) + [COLON] + here + (if |keys| == 1 then [] else [COMMA] + StringifyMembers(v, keys[1..]))
  }

  // ----- what the printed form should distinguish -----

  predicate Nullish(v: Value) {
    v.Undefined? || v.Null? || v.NonFinite?
  }

  /** The object has the key with a value other than undefined. */
  predicate Defined(entries: seq<Entry>, key: JsString) {
    match Find(entries, key) case Some(i) => !entries[i].value.Undefined? case None => false
  }

  /** The same value up to object key order, undefined-valued keys, and what prints as null. */
  ghost predicate Same(a: Value, b: Value) {
    match (a, b)
    case (Bool(x), Bool(y)) => x == y
    case (Number(x), Number(y)) => x == y
    case (Str(x), Str(y)) => x == y
    case (Arr(xs), Arr(ys)) => |xs| == |ys| && forall i :: 0 <= i < |xs| ==> Same(xs[i], ys[i])
    case (Rec(xs), Rec(ys)) =>
      forall key :: Defined(xs, key) == Defined(ys, key)
                    && (Defined(xs, key) ==> Same(xs[Find(xs, key).value].value, ys[Find(ys, key).value].value))
    case _ => Nullish(a) && Nullish(b)
  }

  // ----- keys -----

  ghost predicate Ascending(keys: seq<JsString>) {
    forall i, j :: 0 <= i < j < |keys| ==> Less(keys[i], keys[j])
  }

  lemma {:induction false} LessIsOrder(a: JsString, b: JsString, c: JsString)
    ensures !Less(a, a)
    ensures Less(a, b) && Less(b, c) ==> Less(a, c)
    ensures a != b ==> Less(a, b) || Less(b, a)
    decreases |a| + |b| + |c|
  {
    if a != [] && b != [] && c != [] {
      LessIsOrder(a[1..], b[1..], c[1..]);
      if a[0] == b[0] && a[1..] == b[1..] {
        assert a == [a[0]] + a[1..] && b == [b[0]] + b[1..];
      }
    } else if a != [] && b != [] {
      LessIsOrder(a[1..], b[1..], c);
      if a[0] == b[0] && a[1..] == b[1..] {
        assert a == [a[0]] + a[1..] && b == [b[0]] + b[1..];
      }
    } else if a != [] {
      LessIsOrder(a[1..], b, c);
    }
  }

  lemma {:induction false} InsertKeySorts(key: JsString, keys: seq<JsString>)
    requires Ascending(keys) && key !in keys
    ensures Ascending(InsertKey(key, keys))
    ensures forall k :: k in InsertKey(key, keys) <==> k == key || k in keys
  {
    if keys == [] {
    } else if !Less(keys[0], key) {
      forall i | 0 <= i < |keys| ensures Less(key, keys[i]) {
        LessIsOrder(key, keys[0], keys[i]);
        LessIsOrder(keys[0], key, keys[0]);
      }
    } else {
      var rest := keys[1..];
      InsertKeySorts(key, rest);
      var r := InsertKey(key, rest);
      forall i | 0 <= i < |r| ensures Less(keys[0], r[i]) {
        assert r[i] in r;
      }
      assert keys == [keys[0]] + rest;
    }
  }

  ghost predicate NoRepeats(keys: seq<JsString>) {
    forall i, j :: 0 <= i < j < |keys| ==> keys[i] != keys[j]
  }

  lemma {:induction false} SortKeysSorts(keys: seq<JsString>)
    requires NoRepeats(keys)
    ensures Ascending(SortKeys(keys))
    ensures forall k :: k in SortKeys(keys) <==> k in keys
  {
    if keys != [] {
      SortKeysSorts(keys[1..]);
      InsertKeySorts(keys[0], SortKeys(keys[1..]));
    }
  }

  /** A set of keys has one ascending order. */
  lemma {:induction false} AscendingIsUnique(a: seq<JsString>, b: seq<JsString>)
    requires Ascending(a) && Ascending(b)
    requires forall k :: k in a <==> k in b
    ensures a == b
  {
    assert a != [] ==> a[0] in a;
    assert b != [] ==> b[0] in b;
    if a != [] && b != [] {
      assert a[0] in b && b[0] in a;
      LessIsOrder(a[0], b[0], a[0]);
      assert a[0] == b[0];
      assert a == [a[0]] + a[1..] && b == [b[0]] + b[1..];
      forall k ensures k in a[1..] <==> k in b[1..] {
        assert k in a <==> k in b;
        LessIsOrder(k, k, k);
      }
      AscendingIsUnique(a[1..], b[1..]);
    }
  }

  lemma {:induction false} DefinedKeysExact(entries: seq<Entry>)
    requires forall i, j :: 0 <= i < j < |entries| ==> entries[i].key != entries[j].key
    ensures forall k :: k in DefinedKeys(entries) <==> Defined(entries, k)
    ensures forall k :: Find(entries, k).Some? <==> exists i :: 0 <= i < |entries| && entries[i].key == k
    ensures NoRepeats(DefinedKeys(entries))
  {
    if entries != [] {
      var rest := entries[1..];
      DefinedKeysExact(rest);
      forall k ensures Find(entries, k).Some? <==> exists i :: 0 <= i < |entries| && entries[i].key == k {
        if i :| 0 <= i < |entries| && entries[i].key == k && k != entries[0].key {
          assert rest[i - 1].key == k;
        }
      }
      assert Find(rest, entries[0].key) == None;
      var more := DefinedKeys(rest);
      assert entries[0].key !in more;
      hide DefinedKeys, Find;
      assert NoRepeats([entries[0].key] + more);
      assert [] + more == more;
    }
  }

  /** The keys an object prints, in order. */
  function PrintedKeys(v: Value): seq<JsString>
    requires v.Rec?
  {
    SortKeys(DefinedKeys(v.entries))
  }

  lemma PrintedKeysExact(v: Value)
    requires v.Rec? && WellFormed(v)
    ensures Ascending(PrintedKeys(v))
    ensures forall k :: k in PrintedKeys(v) <==> Defined(v.entries, k)
  {
    DefinedKeysExact(v.entries);
    SortKeysSorts(DefinedKeys(v.entries));
  }

  // ----- equal values print alike -----

  lemma {:induction false} SamePrintsAlike(a: Value, b: Value)
    requires WellFormed(a) && WellFormed(b) && Same(a, b)
    ensures Stringify(a) == Stringify(b)
    decreases a, 1, 0
  {
    match (a, b) {
      case (Arr(xs), Arr(ys)) => SameItemsPrintAlike(a, b, 0);
      case (Rec(xs), Rec(ys)) =>
        PrintedKeysExact(a);
        PrintedKeysExact(b);
        AscendingIsUnique(PrintedKeys(a), PrintedKeys(b));
        SameMembersPrintAlike(a, b, PrintedKeys(a));
      case _ =>
    }
  }

  lemma {:induction false} SameItemsPrintAlike(a: Value, b: Value, i: nat)
    requires a.Arr? && b.Arr? && WellFormed(a) && WellFormed(b) && Same(a, b) && i <= |a.items|
    ensures StringifyItems(a, i) == StringifyItems(b, i)
    decreases a, 0, |a.items| - i
  {
    if i < |a.items| {
      SamePrintsAlike(a.items[i], b.items[i]);
      SameItemsPrintAlike(a, b, i + 1);
    }
  }

  lemma {:induction false} SameMembersPrintAlike(a: Value, b: Value, keys: seq<JsString>)
    requires a.Rec? && b.Rec? && WellFormed(a) && WellFormed(b) && Same(a, b)
    requires forall k :: k in keys ==> Defined(a.entries, k)
    ensures StringifyMembers(a, keys) == StringifyMembers(b, keys)
    decreases a, 0, |keys|
  {
    if keys != [] {
      var k := keys[0];
      assert Defined(a.entries, k) && Defined(b.entries, k);
      SamePrintsAlike(a.entries[Find(a.entries, k).value].value, b.entries[Find(b.entries, k).value].value);
      SameMembersPrintAlike(a, b, keys[1..]);
    }
  }

  // ----- the printed form determines the value -----

  /** What can follow a value inside a larger printed value. */
  predicate Delimited(rest: JsString) {
    rest == [] || rest[0] in {COMMA, RBRACKET, RBRACE}
  }

  lemma HexDigits(u: Unit)
    ensures u == 4096 * (u / 4096) + 256 * (u / 256 % 16) + 16 * (u / 16 % 16) + u % 16
  {
    assert u / 16 == 16 * (u / 256) + u / 16 % 16;
    assert u / 256 == 16 * (u / 4096) + u / 256 % 16;
  }

  lemma HexDigitUnique(v: int, w: int)
    requires 0 <= v < 16 && 0 <= w < 16
    ensures HexDigit(v) == HexDigit(w) ==> v == w
  {
  }

  lemma HexUnique(u: Unit, w: Unit)
    requires UnicodeEscape(u) == UnicodeEscape(w)
    ensures u == w
  {
    var x, y := UnicodeEscape(u), UnicodeEscape(w);
    assert x[2] == y[2] && x[3] == y[3] && x[4] == y[4] && x[5] == y[5];
    HexDigitUnique(u / 4096, w / 4096);
    HexDigitUnique(u / 256 % 16, w / 256 % 16);
    HexDigitUnique(u / 16 % 16, w / 16 % 16);
    HexDigitUnique(u % 16, w % 16);
    hide HexDigit;
    HexDigits(u);
    HexDigits(w);
  }

  lemma EscapeUnitUnique(u: Unit, w: Unit, x: JsString, y: JsString)
    requires EscapeUnit(u) + x == EscapeUnit(w) + y
    ensures u == w && x == y
  {
    var p, q := EscapeUnit(u), EscapeUnit(w);
    assert (p + x)[0] == p[0] && (q + y)[0] == q[0];
    if |p| > 1 {
      assert (p + x)[1] == p[1] && (q + y)[1] == q[1];
      if |p| == 6 {
        assert |q| == 6;
        assert (p + x)[..6] == p && (q + y)[..6] == q;
        HexUnique(u, w);
      }
    }
    assert u == w;
    assert (p + x)[|p|..] == x && (q + y)[|q|..] == y;
  }

  function Token(s: JsString): JsString
    requires s != []
  {
    if StartsWithPair(s) then s[..2] else EscapeUnit(s[0])
  }

  function AfterToken(s: JsString): JsString
    requires s != []
  {
    if StartsWithPair(s) then s[2..] else s[1..]
  }

  lemma TokenUnique(s: JsString, t: JsString, x: JsString, y: JsString)
    requires s != [] && t != []
    requires Token(s) + x == Token(t) + y
    ensures x == y
    ensures AfterToken(s) == AfterToken(t) ==> s == t
  {
    assert (Token(s) + x)[0] == Token(s)[0] && (Token(t) + y)[0] == Token(t)[0];
    if StartsWithPair(s) || StartsWithPair(t) {
      assert StartsWithPair(s) && StartsWithPair(t);
      assert (Token(s) + x)[1] == s[1] && (Token(t) + y)[1] == t[1];
      assert (Token(s) + x)[2..] == x && (Token(t) + y)[2..] == y;
      assert s == [s[0], s[1]] + s[2..] && t == [t[0], t[1]] + t[2..];
    } else {
      EscapeUnitUnique(s[0], t[0], x, y);
      assert s == [s[0]] + s[1..] && t == [t[0]] + t[1..];
    }
  }

  /** An escaped string is over exactly where its closing quote stands. */
  lemma EscapeStart(s: JsString, end: JsString)
    requires end != [] && end[0] == QUOTE
    ensures s == [] ==> Escape(s) + end == end
    ensures s != [] ==> Escape(s) + end == Token(s) + (Escape(AfterToken(s)) + end)
    ensures s != [] <==> (Escape(s) + end)[0] != QUOTE
  {
    if s != [] {
      assert Escape(s) == Token(s) + Escape(AfterToken(s));
      assert (Escape(s) + end)[0] == Token(s)[0];
    }
  }

  lemma {:induction false} EscapeUnique(s: JsString, t: JsString, x: JsString, y: JsString)
    requires x != [] && x[0] == QUOTE && y != [] && y[0] == QUOTE
    requires Escape(s) + x == Escape(t) + y
    ensures s == t && x == y
    decreases |s|
  {
    EscapeStart(s, x);
    EscapeStart(t, y);
    if s != [] {
      var ps, pt := Escape(AfterToken(s)) + x, Escape(AfterToken(t)) + y;
      hide Escape;
      TokenUnique(s, t, ps, pt);
      EscapeUnique(AfterToken(s), AfterToken(t), x, y);
    }
  }

  lemma Cut(p: JsString, x: JsString, y: JsString)
    requires p + x == p + y
    ensures x == y
  {
    assert (p + x)[|p|..] == x && (p + y)[|p|..] == y;
  }

  lemma QuoteText(s: JsString, rest: JsString)
    ensures Quote(s) + rest == [QUOTE] + (Escape(s) + ([QUOTE] + rest))
  {
    hide Escape;
  }

  lemma QuoteUnique(s: JsString, t: JsString, x: JsString, y: JsString)
    requires Quote(s) + x == Quote(t) + y
    ensures s == t && x == y
  {
    QuoteText(s, x);
    QuoteText(t, y);
    hide Quote, Escape;
    Cut([QUOTE], Escape(s) + ([QUOTE] + x), Escape(t) + ([QUOTE] + y));
    EscapeUnique(s, t, [QUOTE] + x, [QUOTE] + y);
    Cut([QUOTE], x, y);
  }

  function NumericPrefix(s: JsString): nat {
    if s != [] && IsNumeric(s[0]) then 1 + NumericPrefix(s[1..]) else 0
  }

  lemma {:induction false} NumberEnds(t: JsString, rest: JsString)
    requires (forall i :: 0 <= i < |t| ==> IsNumeric(t[i])) && Delimited(rest)
    ensures NumericPrefix(t + rest) == |t|
  {
    if t == [] {
      assert t + rest == rest;
    } else {
      assert (t + rest)[1..] == t[1..] + rest;
      NumberEnds(t[1..], rest);
    }
  }

  lemma NumberUnique(s: NumberText, t: NumberText, x: JsString, y: JsString)
    requires s + x == t + y && Delimited(x) && Delimited(y)
    ensures s == t && x == y
  {
    NumberEnds(s, x);
    NumberEnds(t, y);
    assert (s + x)[..|s|] == s && (t + y)[..|t|] == t;
    assert (s + x)[|s|..] == x && (t + y)[|t|..] == y;
  }

  /** The first unit of a printed value tells its kind. */
  function Kind(v: Value): int {
    match v
    case Arr(_) => 0
    case Rec(_) => 1
    case Bool(b) => if b then 2 else 3
    case Number(_) => 4
    case Str(_) => 5
    case _ => 6
  }

  lemma FirstUnitTellsKind(a: Value, b: Value)
    ensures Stringify(a) != [] && Stringify(b) != []
    ensures Stringify(a)[0] == Stringify(b)[0] ==> Kind(a) == Kind(b)
    ensures Stringify(a)[0] !in {RBRACKET, RBRACE, COMMA}
  {
  }

  /** A printed value can be read back in one way only, even inside a larger one. */
  lemma {:induction false} UniquelyDecodable(a: Value, b: Value, x: JsString, y: JsString)
    requires WellFormed(a) && WellFormed(b) && Delimited(x) && Delimited(y)
    requires Stringify(a) + x == Stringify(b) + y
    ensures Same(a, b) && x == y
    decreases a, 2, 0
  {
    FirstUnitTellsKind(a, b);
    assert (Stringify(a) + x)[0] == Stringify(a)[0] && (Stringify(b) + y)[0] == Stringify(b)[0];
    if a.Arr? {
      hide Stringify;
      ArrUnique(a, b, x, y);
    } else if a.Rec? {
      hide Stringify;
      RecUnique(a, b, x, y);
    } else if a.Number? {
      NumberUnique(a.text, b.text, x, y);
    } else if a.Str? {
      QuoteUnique(a.s, b.s, x, y);
    } else {
      assert Stringify(a) == Stringify(b);
      Cut(Stringify(a), x, y);
    }
  }

  lemma {:induction false} ArrUnique(a: Value, b: Value, x: JsString, y: JsString)
    requires a.Arr? && b.Arr? && WellFormed(a) && WellFormed(b)
    requires Stringify(a) + x == Stringify(b) + y
    ensures Same(a, b) && x == y
    decreases a, 1, 0
  {
    var ex, ey := [RBRACKET] + x, [RBRACKET] + y;
    ArrText(a, x);
    ArrText(b, y);
    hide Stringify, StringifyItems, Same;
    Cut([LBRACKET], StringifyItems(a, 0) + ex, StringifyItems(b, 0) + ey);
    ItemsUnique(a, b, 0, ex, ey);
    Cut([RBRACKET], x, y);
    SameAtItems(a, b);
  }

  lemma {:induction false} RecUnique(a: Value, b: Value, x: JsString, y: JsString)
    requires a.Rec? && b.Rec? && WellFormed(a) && WellFormed(b)
    requires Stringify(a) + x == Stringify(b) + y
    ensures Same(a, b) && x == y
    decreases a, 1, 0
  {
    var ka, kb := PrintedKeys(a), PrintedKeys(b);
    var ex, ey := [RBRACE] + x, [RBRACE] + y;
    PrintedKeysExact(a);
    PrintedKeysExact(b);
    RecText(a, x);
    RecText(b, y);
    hide Stringify, StringifyMembers, PrintedKeys, Ascending;
    Cut([LBRACE], StringifyMembers(a, ka) + ex, StringifyMembers(b, kb) + ey);
    MembersUnique(a, b, ka, kb, ex, ey);
    Cut([RBRACE], x, y);
    assert forall k :: Defined(a.entries, k) ==> k in ka;
    SameAtKeys(a, b);
  }

  lemma ArrText(v: Value, rest: JsString)
    requires v.Arr?
    ensures Stringify(v) + rest == [LBRACKET] + (StringifyItems(v, 0) + ([RBRACKET] + rest))
  {
    hide StringifyItems;
  }

  lemma SameAtItems(a: Value, b: Value)
    requires a.Arr? && b.Arr? && |a.items| == |b.items|
    requires forall k :: 0 <= k < |a.items| ==> Same(a.items[k], b.items[k])
    ensures Same(a, b)
  {
  }

  lemma RecText(v: Value, rest: JsString)
    requires v.Rec?
    ensures Stringify(v) + rest == [LBRACE] + (StringifyMembers(v, PrintedKeys(v)) + ([RBRACE] + rest))
  {
    assert Stringify(v) == [LBRACE] + StringifyMembers(v, PrintedKeys(v)) + [RBRACE] by {
      hide StringifyMembers, SortKeys, DefinedKeys;
    }
    hide Stringify, StringifyMembers, PrintedKeys;
    assert [LBRACE] + StringifyMembers(v, PrintedKeys(v)) + [RBRACE] + rest
        == [LBRACE] + (StringifyMembers(v, PrintedKeys(v)) + ([RBRACE] + rest));
  }

  lemma SameAtKeys(a: Value, b: Value)
    requires a.Rec? && b.Rec?
    requires forall k :: Defined(a.entries, k) == Defined(b.entries, k)
    requires forall k :: Defined(a.entries, k) ==> Same(At(a, k), At(b, k))
    ensures Same(a, b)
  {
    forall k | Defined(a.entries, k)
      ensures Same(a.entries[Find(a.entries, k).value].value, b.entries[Find(b.entries, k).value].value)
    {
      assert Same(At(a, k), At(b, k));
    }
  }

  /** What follows the item at `i`. */
  function ItemRest(v: Value, i: nat, end: JsString): JsString
    requires v.Arr? && i < |v.items|
  {
    if i + 1 == |v.items| then end else [COMMA] + (StringifyItems(v, i + 1) + end)
  }

  /** A list of items is over exactly where its closing bracket stands. */
  lemma ItemsStart(v: Value, i: nat, end: JsString)
    requires v.Arr? && i <= |v.items| && end != [] && end[0] == RBRACKET
    ensures i == |v.items| ==> StringifyItems(v, i) + end == end
    ensures i < |v.items| ==> StringifyItems(v, i) + end == Stringify(v.items[i]) + ItemRest(v, i, end)
    ensures i < |v.items| <==> (StringifyItems(v, i) + end)[0] != RBRACKET
    ensures i < |v.items| ==> Delimited(ItemRest(v, i, end)) && (ItemRest(v, i, end)[0] == COMMA <==> i + 1 < |v.items|)
  {
    if i < |v.items| {
      FirstUnitTellsKind(v.items[i], v.items[i]);
      hide Stringify;
      assert StringifyItems(v, i) + end == Stringify(v.items[i]) + ItemRest(v, i, end);
    }
  }

  lemma {:induction false} ItemsUnique(a: Value, b: Value, i: nat, ex: JsString, ey: JsString)
    requires a.Arr? && b.Arr? && WellFormed(a) && WellFormed(b)
    requires i <= |a.items| && i <= |b.items|
    requires ex != [] && ex[0] == RBRACKET && ey != [] && ey[0] == RBRACKET
    requires StringifyItems(a, i) + ex == StringifyItems(b, i) + ey
    ensures |a.items| == |b.items| && ex == ey
    ensures forall k :: i <= k < |a.items| ==> Same(a.items[k], b.items[k])
    decreases a, 0, |a.items| - i
  {
    ItemsStart(a, i, ex);
    ItemsStart(b, i, ey);
    if i < |a.items| {
      var ra, rb := ItemRest(a, i, ex), ItemRest(b, i, ey);
      hide StringifyItems, Stringify, Same;
      UniquelyDecodable(a.items[i], b.items[i], ra, rb);
      if i + 1 < |a.items| {
        Cut([COMMA], StringifyItems(a, i + 1) + ex, StringifyItems(b, i + 1) + ey);
        ItemsUnique(a, b, i + 1, ex, ey);
      }
    }
  }

  /** The value an object prints for a key. */
  function At(v: Value, key: JsString): (r: Value)
    requires v.Rec? && Defined(v.entries, key)
    ensures r < v
  {
    v.entries[Find(v.entries, key).value].value
  }

  /** What follows the first member's value. */
  function MemberRest(v: Value, keys: seq<JsString>, end: JsString): JsString
    requires v.Rec? && keys != []
  {
    if |keys| == 1 then end else [COMMA] + (StringifyMembers(v, keys[1..]) + end)
  }

  lemma Regroup(q: JsString, here: JsString, more: JsString, end: JsString)
    ensures q + [COLON] + here + more + end == q + ([COLON] + (here + (more + end)))
  {
  }

  /** The members after the first, with the comma that introduces them. */
  function MoreMembers(v: Value, keys: seq<JsString>): JsString
    requires v.Rec? && keys != []
  {
    if |keys| == 1 then [] else [COMMA] + StringifyMembers(v, keys[1..])
  }

  lemma MembersUnfold(v: Value, keys: seq<JsString>)
    requires v.Rec? && keys != [] && Defined(v.entries, keys[0])
    ensures StringifyMembers(v, keys) == Quote(keys[0]) + [COLON] + Stringify(At(v, keys[0])) + MoreMembers(v, keys)
  {
    hide Stringify, Quote, Escape;
  }

  lemma MemberRestStart(v: Value, keys: seq<JsString>, end: JsString)
    requires v.Rec? && keys != []
    ensures MoreMembers(v, keys) + end == MemberRest(v, keys, end)
    ensures end != [] && end[0] == RBRACE ==>
      Delimited(MemberRest(v, keys, end)) && (MemberRest(v, keys, end)[0] == COMMA <==> |keys| > 1)
  {
    hide StringifyMembers;
  }

  /** A list of members is over exactly where its closing brace stands. */
  lemma MembersStart(v: Value, keys: seq<JsString>, end: JsString)
    requires v.Rec? && end != [] && end[0] == RBRACE
    requires forall k :: k in keys ==> Defined(v.entries, k)
    ensures keys == [] ==> StringifyMembers(v, keys) + end == end
    ensures keys != [] ==>
      StringifyMembers(v, keys) + end
      == Quote(keys[0]) + ([COLON] + (Stringify(At(v, keys[0])) + MemberRest(v, keys, end)))
    ensures keys != [] <==> (StringifyMembers(v, keys) + end)[0] != RBRACE
    ensures keys != [] ==> Delimited(MemberRest(v, keys, end)) && (MemberRest(v, keys, end)[0] == COMMA <==> |keys| > 1)
  {
    if keys != [] {
      assert Defined(v.entries, keys[0]);
      MembersUnfold(v, keys);
      MemberRestStart(v, keys, end);
      assert Quote(keys[0])[0] == QUOTE;
      hide *;
      Regroup(Quote(keys[0]), Stringify(At(v, keys[0])), MoreMembers(v, keys), end);
    } else {
      assert StringifyMembers(v, keys) == [];
    }
  }

  lemma {:induction false} MembersUnique(a: Value, b: Value, ka: seq<JsString>, kb: seq<JsString>, ex: JsString,
                                         ey: JsString)
    requires a.Rec? && b.Rec? && WellFormed(a) && WellFormed(b)
    requires forall k :: k in ka ==> Defined(a.entries, k)
    requires forall k :: k in kb ==> Defined(b.entries, k)
    requires ex != [] && ex[0] == RBRACE && ey != [] && ey[0] == RBRACE
    requires StringifyMembers(a, ka) + ex == StringifyMembers(b, kb) + ey
    ensures ka == kb && ex == ey
    ensures forall k :: k in ka ==> Same(At(a, k), At(b, k))
    decreases a, 0, |ka|
  {
    MembersStart(a, ka, ex);
    MembersStart(b, kb, ey);
    if ka != [] {
      var ra, rb := MemberRest(a, ka, ex), MemberRest(b, kb, ey);
      var va, vb := At(a, ka[0]), At(b, kb[0]);
      assert WellFormed(va) && WellFormed(vb);
      hide StringifyMembers, Stringify, Same, Quote, At, Defined, Find;
      QuoteUnique(ka[0], kb[0], [COLON] + (Stringify(va) + ra), [COLON] + (Stringify(vb) + rb));
      Cut([COLON], Stringify(va) + ra, Stringify(vb) + rb);
      UniquelyDecodable(va, vb, ra, rb);
      assert ka == [ka[0]] + ka[1..] && kb == [kb[0]] + kb[1..];
      if |ka| > 1 {
        Cut([COMMA], StringifyMembers(a, ka[1..]) + ex, StringifyMembers(b, kb[1..]) + ey);
        MembersUnique(a, b, ka[1..], kb[1..], ex, ey);
      }
    }
  }

  /** Two values print alike exactly when they are the same up to key order and undefined-valued keys. */
  lemma StringifyEqualIffSame(a: Value, b: Value)
    requires WellFormed(a) && WellFormed(b)
    ensures Stringify(a) == Stringify(b) <==> Same(a, b)
  {
    if Same(a, b) {
      SamePrintsAlike(a, b);
    }
    if Stringify(a) == Stringify(b) {
      UniquelyDecodable(a, b, [], []);
    }
  }

  /**
   A list of undefined prints like a list of null or of an infinite number, and an object with an undefined member
   like one without.
   */
  lemma DifferentPrintAlike(key: JsString)
    ensures Stringify(Arr([Undefined])) == Stringify(Arr([Null])) == Stringify(Arr([NonFinite]))
            == [LBRACKET] + NULL_TEXT + [RBRACKET]
    ensures Stringify(Rec([Entry(key, Undefined)])) == Stringify(Rec([])) == [LBRACE, RBRACE]
  {
    assert NULL_TEXT + [] == NULL_TEXT;
    assert DefinedKeys([Entry(key, Undefined)]) == [] by {
      assert [Entry(key, Undefined)][1..] == [];
    }
  }
}
