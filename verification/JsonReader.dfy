/** A reader of JSON texts after RFC 8259, without white space: the partner of the printer in `StableStringify`. */
module JsonReader {
  import opened Wrappers
  import opened StableStringify

  // ----- strings: section 7 of RFC 8259 -----

  function HexDigitValue(u: Unit): Option<int> {
    if '0' as int <= u <= '9' as int then Some(u - '0' as int)
    else if 'a' as int <= u <= 'f' as int then Some(u - 'a' as int + 10)
    else if 'A' as int <= u <= 'F' as int then Some(u - 'A' as int + 10)
    else None
  }

  function FourDigits(t: JsString): (r: Option<Unit>)
    requires |t| >= 4
  {
    match (HexDigitValue(t[0]), HexDigitValue(t[1]), HexDigitValue(t[2]), HexDigitValue(t[3]))
    case (Some(a), Some(b), Some(c), Some(d)) =>
      HexInRange(t);
      Some(((a * 16 + b) * 16 + c) * 16 + d)
    case _ => None
  }

  lemma HexInRange(t: JsString)
    requires |t| >= 4
    ensures forall i :: 0 <= i < 4 && HexDigitValue(t[i]).Some? ==> 0 <= HexDigitValue(t[i]).value < 16
  {
  }

  /** The unit a backslash and this letter stand for. */
  function Escaped(letter: Unit): Option<Unit> {
    if letter == '"' as int then Some('"' as int)
    else if letter == '\\' as int then Some('\\' as int)
    else if letter == '/' as int then Some('/' as int)
    else if letter == 'b' as int then Some(0x08)
    else if letter == 'f' as int then Some(0x0C)
    else if letter == 'n' as int then Some(0x0A)
    else if letter == 'r' as int then Some(0x0D)
    else if letter == 't' as int then Some(0x09)
    else None
  }

  /** The string up to the closing quotation mark, and what follows that. */
  function ReadString(t: JsString): (r: Option<(JsString, JsString)>)
    ensures r.Some? ==> |r.value.1| < |t|
    decreases |t|
  {
    if t == [] || t[0] < 0x20 then None
    else if t[0] == '"' as int then Some(([], t[1..]))
    else if t[0] != '\\' as int then Prefixed(t[0], ReadString(t[1..]))
    else if |t| >= 6 && t[1] == 'u' as int then
      match FourDigits(t[2..6])
      case Some(u) => Prefixed(u, ReadString(t[6..]))
      case None => None
    else if |t| >= 2 then
      match Escaped(t[1])
      case Some(u) => Prefixed(u, ReadString(t[2..]))
      case None => None
    else None
  }

  function Prefixed(u: Unit, r: Option<(JsString, JsString)>): Option<(JsString, JsString)> {
    match r case Some((s, rest)) => Some(([u] + s, rest)) case None => None
  }

  // ----- values: sections 2 to 6 -----

  function ReadValue(t: JsString): (r: Option<(Value, JsString)>)
    ensures r.Some? ==> |r.value.1| < |t| && !r.value.0.Undefined?
    decreases |t|, 0
  {
    if t == [] then None
    else if t[0] == '"' as int then
      match ReadString(t[1..]) case Some((s, rest)) => Some((Str(s), rest)) case None => None
    else if t[0] == '[' as int then
      if |t| > 1 && t[1] == ']' as int then Some((Arr([]), t[2..]))
      else match ReadItems(t[1..]) case Some((items, rest)) => Some((Arr(items), rest)) case None => None
    else if t[0] == '{' as int then
      if |t| > 1 && t[1] == '}' as int then Some((Rec([]), t[2..]))
      else match ReadMembers(t[1..]) case Some((entries, rest)) => Some((Rec(entries), rest)) case None => None
    else if ['n' as int, 'u' as int, 'l' as int, 'l' as int] <= t then Some((Null, t[4..]))
    else if ['t' as int, 'r' as int, 'u' as int, 'e' as int] <= t then Some((Bool(true), t[4..]))
    else if ['f' as int, 'a' as int, 'l' as int, 's' as int, 'e' as int] <= t then Some((Bool(false), t[5..]))
    else if t[0] == '-' as int || '0' as int <= t[0] <= '9' as int then
      NumericUnits(t);
      Some((Number(t[..NumericPrefix(t)]), t[NumericPrefix(t)..]))
    else None
  }

  lemma {:induction false} NumericUnits(t: JsString)
    ensures NumericPrefix(t) <= |t| && forall i :: 0 <= i < NumericPrefix(t) ==> IsNumeric(t[i])
    ensures t != [] && (t[0] == 45 || 48 <= t[0] <= 57) ==> NumericPrefix(t) > 0
  {
    if t != [] && IsNumeric(t[0]) {
      NumericUnits(t[1..]);
      forall i | 0 < i < NumericPrefix(t) ensures IsNumeric(t[i]) {
        assert t[i] == t[1..][i - 1];
      }
    }
  }

  function ReadItems(t: JsString): (r: Option<(seq<Value>, JsString)>)
    ensures r.Some? ==> |r.value.1| < |t|
    decreases |t|, 1
  {
    match ReadValue(t)
    case None => None
    case Some((v, after)) =>
      if after == [] then None
      else if after[0] == ']' as int then Some(([v], after[1..]))
      else if after[0] == ',' as int then
        match ReadItems(after[1..]) case Some((items, rest)) => Some(([v] + items, rest)) case None => None
      else None
  }

  function ReadMembers(t: JsString): (r: Option<(seq<Entry>, JsString)>)
    ensures r.Some? ==> |r.value.1| < |t|
    decreases |t|, 1
  {
    if t == [] || t[0] != '"' as int then None
    else
      match ReadString(t[1..])
      case None => None
      case Some((key, named)) =>
        if named == [] || named[0] != ':' as int then None
        else
          match ReadValue(named[1..])
          case None => None
          case Some((v, after)) =>
            if after == [] then None
            else if after[0] == '}' as int then Some(([Entry(key, v)], after[1..]))
            else if after[0] == ',' as int then
              match ReadMembers(after[1..])
              case Some((entries, rest)) => Some(([Entry(key, v)] + entries, rest))
              case None => None
            else None
  }

  // ----- what is printed is read back -----

  lemma DigitsReadBack(v: int)
    requires 0 <= v < 16
    ensures HexDigitValue(HexDigit(v)) == Some(v)
  {
  }

  lemma EscapeReadsBack(u: Unit, end: JsString)
    ensures ReadString(UnicodeEscape(u) + end) == Prefixed(u, ReadString(end))
  {
    var t := UnicodeEscape(u) + end;
    var digits := t[2..6];
    assert t[6..] == end && t[0] == BACKSLASH && t[1] == 117;
    assert digits == [HexDigit(u / 4096), HexDigit(u / 256 % 16), HexDigit(u / 16 % 16), HexDigit(u % 16)];
    DigitsReadBack(u / 4096);
    DigitsReadBack(u / 256 % 16);
    DigitsReadBack(u / 16 % 16);
    DigitsReadBack(u % 16);
    HexDigits(u);
    assert FourDigits(digits) == Some(u) by { hide HexDigit, HexDigitValue, UnicodeEscape, ReadString; }
    hide FourDigits, UnicodeEscape, HexDigit;
  }

  lemma UnitReadsBack(u: Unit, end: JsString)
    ensures ReadString(EscapeUnit(u) + end) == Prefixed(u, ReadString(end))
  {
    EscapeReadsBack(u, end);
    var t := EscapeUnit(u) + end;
    if |EscapeUnit(u)| == 1 {
      assert t[0] == u && t[1..] == end;
    } else if |EscapeUnit(u)| == 2 {
      assert t[0] == BACKSLASH && t[1] == EscapeUnit(u)[1] && t[2..] == end;
    }
    hide FourDigits, UnicodeEscape;
  }

  /** Units that need no escape are read as they are. */
  lemma PlainReadsBack(u: Unit, end: JsString)
    requires u >= 0x20 && u != QUOTE && u != BACKSLASH
    ensures ReadString([u] + end) == Prefixed(u, ReadString(end))
  {
    assert ([u] + end)[1..] == end;
    hide FourDigits;
  }

  lemma TokenReadsBack(s: JsString, end: JsString)
    requires s != []
    ensures ReadString(Token(s) + end) ==
            if StartsWithPair(s) then Prefixed(s[0], Prefixed(s[1], ReadString(end)))
            else Prefixed(s[0], ReadString(end))
  {
    if StartsWithPair(s) {
      PlainReadsBack(s[1], end);
      PlainReadsBack(s[0], [s[1]] + end);
      assert Token(s) + end == [s[0]] + ([s[1]] + end);
    } else {
      UnitReadsBack(s[0], end);
    }
    hide ReadString, EscapeUnit;
  }

  lemma QuoteEndsString(rest: JsString)
    ensures ReadString([QUOTE] + rest) == Some(([], rest))
  {
    assert ([QUOTE] + rest)[1..] == rest;
  }

  lemma TokenFirst(s: JsString)
    requires s != []
    ensures s == if StartsWithPair(s) then [s[0]] + ([s[1]] + AfterToken(s)) else [s[0]] + AfterToken(s)
  {
  }

  /** An escaped string is read back as the string, up to its closing quotation mark. */
  lemma {:induction false} StringReadsBack(s: JsString, rest: JsString)
    ensures ReadString(Escape(s) + ([QUOTE] + rest)) == Some((s, rest))
    decreases |s|
  {
    QuoteEndsString(rest);
    EscapeStart(s, [QUOTE] + rest);
    if s != [] {
      TokenFirst(s);
      TokenReadsBack(s, Escape(AfterToken(s)) + ([QUOTE] + rest));
      StringReadsBack(AfterToken(s), rest);
    }
    hide ReadString, Escape, Token, StartsWithPair;
  }

  lemma QuoteReadsBack(s: JsString, rest: JsString)
    ensures var t := Quote(s) + rest; t[0] == '"' as int && ReadString(t[1..]) == Some((s, rest))
  {
    QuoteText(s, rest);
    StringReadsBack(s, rest);
    hide Escape, Quote, ReadString;
    assert ([QUOTE] + (Escape(s) + ([QUOTE] + rest)))[1..] == Escape(s) + ([QUOTE] + rest);
  }

  lemma WordReadsBack(v: Value, rest: JsString) returns (w: Value)
    requires !v.Arr? && !v.Rec? && !v.Str? && !v.Number?
    ensures ReadValue(Stringify(v) + rest) == Some((w, rest)) && Same(w, v) && !w.Undefined?
  {
    var t := Stringify(v) + rest;
    assert t[|Stringify(v)|..] == rest && t[..|Stringify(v)|] == Stringify(v);
    assert t[0] == Stringify(v)[0];
    w := match v case Bool(b) => Bool(b) case _ => Null;
  }

  lemma NumberReadsBack(text: NumberText, rest: JsString)
    requires Delimited(rest)
    ensures ReadValue(text + rest) == Some((Number(text), rest))
  {
    var t := text + rest;
    NumberEnds(text, rest);
    assert t[..|text|] == text && t[|text|..] == rest && t[0] == text[0];
    hide ReadString, ReadItems, ReadMembers;
  }

  /** A printed value is read back as the same value, and what follows it is what is left. */
  lemma {:induction false} ReadsBack(v: Value, rest: JsString) returns (w: Value)
    requires WellFormed(v) && Delimited(rest)
    ensures ReadValue(Stringify(v) + rest) == Some((w, rest)) && Same(w, v) && !w.Undefined?
    decreases v, 2, 0
  {
    match v {
      case Arr(_) => w := ArrayReadsBack(v, rest);
      case Rec(_) => w := ObjectReadsBack(v, rest);
      case Str(s) =>
        QuoteReadsBack(s, rest);
        w := Str(s);
        hide ReadString, ReadItems, ReadMembers, Quote;
      case Number(text) =>
        NumberReadsBack(text, rest);
        w := v;
        hide ReadValue;
      case _ => w := WordReadsBack(v, rest);
    }
  }

  lemma {:induction false} ArrayReadsBack(v: Value, rest: JsString) returns (w: Value)
    requires v.Arr? && WellFormed(v)
    ensures ReadValue(Stringify(v) + rest) == Some((w, rest)) && Same(w, v) && !w.Undefined?
    decreases v, 1, 0
  {
    var end := [RBRACKET] + rest;
    ArrText(v, rest);
    ItemsStart(v, 0, end);
    var t := [LBRACKET] + (StringifyItems(v, 0) + end);
    assert t[0] == LBRACKET && t[1..] == StringifyItems(v, 0) + end;
    if v.items == [] {
      w := Arr([]);
      assert t[1..] == end && t[2..] == rest;
    } else {
      var items := ItemsReadBack(v, 0, rest);
      w := Arr(items);
      assert t[1] == t[1..][0] != RBRACKET;
    }
    hide ReadItems, ReadMembers, ReadString, StringifyItems, Stringify;
  }

  /** The first item read, and the items after its comma. */
  lemma ItemsRead(t: JsString, v: Value, after: JsString, items: seq<Value>, rest: JsString)
    requires ReadValue(t) == Some((v, after)) && after != []
    ensures after[0] == RBRACKET ==> ReadItems(t) == Some(([v], after[1..]))
    ensures after[0] == COMMA && ReadItems(after[1..]) == Some((items, rest)) ==>
              ReadItems(t) == Some(([v] + items, rest))
  {
    hide ReadValue;
  }

  /** The values are those of the list from `i` on. */
  ghost predicate SameItems(items: seq<Value>, v: Value, i: nat)
    requires v.Arr?
  {
    i + |items| == |v.items| && forall k :: 0 <= k < |items| ==> Same(items[k], v.items[i + k])
  }

  lemma SameItemsFirst(w: Value, items: seq<Value>, v: Value, i: nat)
    requires v.Arr? && i < |v.items| && Same(w, v.items[i]) && SameItems(items, v, i + 1)
    ensures SameItems([w] + items, v, i)
  {
    hide Same;
    forall k | 0 <= k <= |items| ensures Same(([w] + items)[k], v.items[i + k]) {
      if k > 0 {
        assert Same(items[k - 1], v.items[i + 1 + (k - 1)]);
      }
    }
  }

  lemma {:induction false} ItemsReadBack(v: Value, i: nat, rest: JsString) returns (items: seq<Value>)
    requires v.Arr? && WellFormed(v) && i < |v.items|
    ensures ReadItems(StringifyItems(v, i) + ([RBRACKET] + rest)) == Some((items, rest)) && SameItems(items, v, i)
    decreases v, 0, |v.items| - i
  {
    var end := [RBRACKET] + rest;
    ItemsStart(v, i, end);
    assert WellFormed(v.items[i]);
    hide Stringify, StringifyItems, Same, ReadValue, ReadItems;
    var text, after := StringifyItems(v, i) + end, ItemRest(v, i, end);
    var w := ReadsBack(v.items[i], after);
    if i + 1 == |v.items| {
      items := [w];
      assert after == end && end[1..] == rest;
      hide SameItems, ItemRest, WellFormed;
      ItemsRead(text, w, after, [], rest);
      SameItemsFirst(w, [], v, i) by {
        assert SameItems([], v, i + 1);
      }
      assert [w] + [] == [w];
    } else {
      var more := ItemsReadBack(v, i + 1, rest);
      items := [w] + more;
      assert after[0] == COMMA && after[1..] == StringifyItems(v, i + 1) + end;
      hide SameItems, ItemRest, WellFormed;
      ItemsRead(text, w, after, more, rest);
      SameItemsFirst(w, more, v, i);
    }
  }

  lemma {:induction false} ObjectReadsBack(v: Value, rest: JsString) returns (w: Value)
    requires v.Rec? && WellFormed(v)
    ensures ReadValue(Stringify(v) + rest) == Some((w, rest)) && Same(w, v) && !w.Undefined?
    decreases v, 1, 0
  {
    var keys, end := PrintedKeys(v), [RBRACE] + rest;
    PrintedKeysExact(v);
    RecText(v, rest);
    MembersStart(v, keys, end);
    hide StringifyMembers, Stringify, PrintedKeys, ReadItems, ReadMembers, ReadString;
    var t := [LBRACE] + (StringifyMembers(v, keys) + end);
    assert t[0] == LBRACE && t[1..] == StringifyMembers(v, keys) + end;
    var entries: seq<Entry> := [];
    if keys == [] {
      assert t[1..] == end && t[2..] == rest;
    } else {
      entries := MembersReadBack(v, keys, rest);
      assert t[1] == t[1..][0] != RBRACE;
    }
    w := Rec(entries);
    hide ReadValue;
    KeysDistinct(keys);
    SameEntries(v, keys, entries);
  }

  lemma KeysDistinct(keys: seq<JsString>)
    requires Ascending(keys)
    ensures NoRepeats(keys)
  {
    forall i, j | 0 <= i < j < |keys| ensures keys[i] != keys[j] {
      LessIsOrder(keys[i], keys[i], keys[i]);
    }
    hide Less;
  }

  lemma {:induction false} FoundAt(entries: seq<Entry>, keys: seq<JsString>, key: JsString)
    requires |entries| == |keys| && NoRepeats(keys) && forall i :: 0 <= i < |keys| ==> entries[i].key == keys[i]
    ensures Find(entries, key).Some? <==> key in keys
    ensures Find(entries, key).Some? ==> keys[Find(entries, key).value] == key
  {
    if entries != [] {
      assert forall i :: 0 <= i < |keys| - 1 ==> keys[1..][i] == keys[i + 1] && entries[1..][i] == entries[i + 1];
      FoundAt(entries[1..], keys[1..], key);
      assert keys == [keys[0]] + keys[1..];
    }
  }

  lemma SameEntries(v: Value, keys: seq<JsString>, entries: seq<Entry>)
    requires v.Rec? && NoRepeats(keys) && forall k :: k in keys <==> Defined(v.entries, k)
    requires |entries| == |keys|
    requires forall i :: 0 <= i < |keys| ==>
               entries[i].key == keys[i] && !entries[i].value.Undefined? && Same(entries[i].value, At(v, keys[i]))
    ensures Same(Rec(entries), v)
  {
    var w := Rec(entries);
    hide Same;
    forall key ensures Defined(entries, key) == Defined(v.entries, key)
                       && (Defined(entries, key) ==> Same(At(w, key), At(v, key))) {
      FoundAt(entries, keys, key);
    }
    hide Defined, At;
    SameAtKeys(w, v);
  }

  lemma {:induction false} MembersReadBack(v: Value, keys: seq<JsString>, rest: JsString) returns (entries: seq<Entry>)
    requires v.Rec? && WellFormed(v) && keys != [] && forall k :: k in keys ==> Defined(v.entries, k)
    ensures ReadMembers(StringifyMembers(v, keys) + ([RBRACE] + rest)) == Some((entries, rest))
    ensures |entries| == |keys|
    ensures forall i :: 0 <= i < |keys| ==>
              entries[i].key == keys[i] && !entries[i].value.Undefined? && Same(entries[i].value, At(v, keys[i]))
    decreases v, 0, |keys|
  {
    var end := [RBRACE] + rest;
    MembersStart(v, keys, end);
    var key, value, after := keys[0], At(v, keys[0]), MemberRest(v, keys, end);
    assert WellFormed(value);
    var named := [COLON] + (Stringify(value) + after);
    QuoteReadsBack(key, named);
    hide Stringify, StringifyMembers, Same, ReadValue, ReadString, Quote, At;
    var w := ReadsBack(value, after);
    assert named[1..] == Stringify(value) + after;
    if |keys| == 1 {
      entries := [Entry(key, w)];
      assert end[1..] == rest;
    } else {
      var more := MembersReadBack(v, keys[1..], rest);
      entries := [Entry(key, w)] + more;
      assert after[1..] == StringifyMembers(v, keys[1..]) + end;
    }
  }
}
