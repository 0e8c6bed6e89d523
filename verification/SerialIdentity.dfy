/**
 Disk serial identity, written once in the API and once in the agent. Strings are ASCII: `strip`,
 `upper` and `isspace` are modelled for ASCII characters.
 */
module SerialIdentity {
  import opened Wrappers

  predicate IsSpace(c: char) {
    9 <= c as int <= 13 || 28 <= c as int <= 32
  }

  function StripLeft(s: string): string {
    if s != "" && IsSpace(s[0]) then StripLeft(s[1..]) else s
  }

  function StripRight(s: string): string {
    if s != "" && IsSpace(s[|s| - 1]) then StripRight(s[..|s| - 1]) else s
  }

  function Upper(c: char): char {
    if 'a' <= c <= 'z' then c - 'a' + 'A' else c
  }

  predicate IsSeparator(c: char) {
    c == ' ' || c == '_' || c == '-'
  }

  /** Upper-cased with the separators dropped. */
  function Squeeze(s: string): string {
    if s == "" then ""
    else (if IsSeparator(Upper(s[0])) then "" else [Upper(s[0])]) + Squeeze(s[1..])
  }

  function Normalize(value: Option<string>): string {
    match value
    case None => ""
    case Some(s) => Squeeze(StripRight(StripLeft(s)))
  }

  predicate IsHexDigit(c: char) {
    '0' <= c <= '9' || 'A' <= c <= 'F'
  }

  function HexValue(c: char): (v: int)
    requires IsHexDigit(c)
    ensures 0 <= v < 16
  {
    if c <= '9' then c as int - '0' as int else c as int - 'A' as int + 10
  }

  /** The bytes written by pairs of hexadecimal digits, as characters. */
  function Unhex(digits: string): string
    requires forall c :: c in digits ==> IsHexDigit(c)
  {
    if |digits| < 2 then ""
    else [(16 * HexValue(digits[0]) + HexValue(digits[1])) as char] + Unhex(digits[2..])
  }

  /** In `string.printable` and not one of its control characters. */
  predicate IsPrintable(c: char) {
    ' ' <= c <= '~'
  }

  function DecodeHexAscii(value: Option<string>): (decoded: Option<string>)
    ensures decoded.Some? ==> decoded.value != ""
  {
    var clean := Normalize(value);
    if |clean| < 8 || |clean| % 2 != 0 then None
    else if exists c :: c in clean && !IsHexDigit(c) then None
    else
      var decoded := Unhex(clean);
      if decoded == "" || exists c :: c in decoded && !IsPrintable(c) then None else Some(decoded)
  }

  function Or(a: Option<string>, b: Option<string>): Option<string> {
    if a.Some? && a.value != "" then a else b
  }

  function AppendUnique(values: seq<string>, value: string): seq<string> {
    if value != "" && value !in values then values + [value] else values
  }

  // ----- the API's copy -----

  predicate VendorPrefixed(value: string, prefix: string) {
    prefix <= value && |value| - |prefix| >= 6 && value[|prefix|] == 'W'
  }

  function StripVendorPrefix(value: string): string {
    if VendorPrefixed(value, "WDC") then value[3..]
    else if VendorPrefixed(value, "WD") then value[2..]
    else value
  }

  function CanonicalSerial(value: Option<string>): string {
    StripVendorPrefix(Normalize(Or(DecodeHexAscii(value), value)))
  }

  function ApiAdd(aliases: seq<string>, candidate: Option<string>): seq<string> {
    var normalized := Normalize(candidate);
    if normalized == "" then aliases
    else AppendUnique(AppendUnique(aliases, normalized), StripVendorPrefix(normalized))
  }

  function ApiAliases(value: Option<string>): seq<string> {
    AppendUnique(ApiAdd(ApiAdd([], value), DecodeHexAscii(value)), CanonicalSerial(value))
  }

  method SerialAliases(value: Option<string>) returns (aliases: seq<string>)
    ensures aliases == ApiAliases(value)
  {
    aliases := [];
    var candidates := [value, DecodeHexAscii(value)];
    var i := 0;
    while i < 2
      invariant 0 <= i <= 2
      invariant aliases == if i == 0 then [] else if i == 1 then ApiAdd([], value)
                           else ApiAdd(ApiAdd([], value), DecodeHexAscii(value))
    {
      var normalized := Normalize(candidates[i]);
      if normalized != "" {
        aliases := AppendUnique(aliases, normalized);
        aliases := AppendUnique(aliases, StripVendorPrefix(normalized));
      }
      i := i + 1;
    }
    var canonical := CanonicalSerial(value);
    if canonical != "" {
      aliases := AppendUnique(aliases, canonical);
    }
  }

  predicate SerialsMatch(left: Option<string>, right: Option<string>) {
    && left.Some? && left.value != "" && right.Some? && right.value != ""
    && exists a :: a in ApiAliases(left) && a in ApiAliases(right)
  }

  // ----- the agent's copy -----

  function AgentCanonical(value: Option<string>): string {
    var candidate := Normalize(Or(DecodeHexAscii(value), value));
    if "WDC" <= candidate && |candidate[3..]| >= 6 && candidate[3] == 'W' then candidate[3..]
    else if "WD" <= candidate && |candidate[2..]| >= 6 && candidate[2] == 'W' then candidate[2..]
    else candidate
  }

  function AgentAdd(aliases: seq<string>, candidate: Option<string>): seq<string> {
    AppendUnique(AppendUnique(aliases, Normalize(candidate)), AgentCanonical(candidate))
  }

  function AgentAliases(value: Option<string>): seq<string> {
    AgentAdd(AgentAdd(AgentAdd([], value), DecodeHexAscii(value)), Some(AgentCanonical(value)))
  }

  method AgentSerialAliases(value: Option<string>) returns (aliases: seq<string>)
    ensures aliases == AgentAliases(value)
  {
    aliases := [];
    var candidates := [value, DecodeHexAscii(value), Some(AgentCanonical(value))];
    var i := 0;
    while i < 3
      invariant 0 <= i <= 3
      invariant aliases == if i == 0 then [] else if i == 1 then AgentAdd([], value)
                           else if i == 2 then AgentAdd(AgentAdd([], value), DecodeHexAscii(value))
                           else AgentAliases(value)
    {
      var normalized := Normalize(candidates[i]);
      if normalized != "" && normalized !in aliases {
        aliases := aliases + [normalized];
      }
      var canonical := AgentCanonical(candidates[i]);
      if canonical != "" && canonical !in aliases {
        aliases := aliases + [canonical];
      }
      i := i + 1;
    }
  }

  // ----- how the two relate -----

  lemma CanonicalsAgree(value: Option<string>)
    ensures AgentCanonical(value) == CanonicalSerial(value)
  {
  }

  /** Decodable serials are hexadecimal, so their own normal form carries no vendor prefix. */
  lemma HexHasNoVendor(value: Option<string>)
    requires DecodeHexAscii(value).Some?
    ensures StripVendorPrefix(Normalize(value)) == Normalize(value)
  {
    var clean := Normalize(value);
    assert clean[0] in clean;
  }

  lemma AppendedMembers(values: seq<string>, value: string)
    ensures forall a :: a in AppendUnique(values, value) <==> a in values || (a == value && value != "")
    ensures Distinct(values) ==> Distinct(AppendUnique(values, value))
  {
  }

  ghost predicate Distinct(aliases: seq<string>) {
    "" !in aliases && forall i, j :: 0 <= i < j < |aliases| ==> aliases[i] != aliases[j]
  }

  lemma ApiAddMembers(aliases: seq<string>, candidate: Option<string>)
    requires Distinct(aliases)
    ensures var n := Normalize(candidate);
            forall a :: a in ApiAdd(aliases, candidate) <==>
              a in aliases || (a != "" && n != "" && (a == n || a == StripVendorPrefix(n)))
    ensures Distinct(ApiAdd(aliases, candidate))
  {
    var n := Normalize(candidate);
    hide Normalize, StripVendorPrefix;
    AppendedMembers(aliases, n);
    AppendedMembers(AppendUnique(aliases, n), StripVendorPrefix(n));
    hide AppendUnique, Distinct;
  }

  /** The normal or the canonical form of a serial, if not empty. */
  predicate IsForm(value: Option<string>, a: string) {
    a != "" && (a == Normalize(value) || a == AgentCanonical(value))
  }

  lemma AgentAddMembers(aliases: seq<string>, candidate: Option<string>)
    requires Distinct(aliases)
    ensures forall a :: a in AgentAdd(aliases, candidate) <==> a in aliases || IsForm(candidate, a)
    ensures Distinct(AgentAdd(aliases, candidate))
  {
    hide Normalize, AgentCanonical;
    AppendedMembers(aliases, Normalize(candidate));
    AppendedMembers(AppendUnique(aliases, Normalize(candidate)), AgentCanonical(candidate));
    hide AppendUnique, Distinct;
  }

  /** What the API lists: the normal form and its decoding, each with and without a vendor prefix. */
  lemma ApiMembers(value: Option<string>)
    ensures var n, d := Normalize(value), Normalize(DecodeHexAscii(value));
            forall a :: a in ApiAliases(value) <==>
              a != "" && (a in {n, d, CanonicalSerial(value)}
                          || (n != "" && a == StripVendorPrefix(n)) || (d != "" && a == StripVendorPrefix(d)))
    ensures Distinct(ApiAliases(value))
  {
    var one := ApiAdd([], value);
    var two := ApiAdd(one, DecodeHexAscii(value));
    ApiAddMembers([], value);
    ApiAddMembers(one, DecodeHexAscii(value));
    AppendedMembers(two, CanonicalSerial(value));
    hide Normalize, DecodeHexAscii, StripVendorPrefix, CanonicalSerial, ApiAdd, AppendUnique, Distinct;
  }

  /**
   What the agent lists: the normal and the canonical form of the serial, of its decoding and of its canonical
   form.
   */
  lemma AgentMembers(value: Option<string>)
    ensures forall a :: a in AgentAliases(value) <==>
              IsForm(value, a) || IsForm(DecodeHexAscii(value), a) || IsForm(Some(AgentCanonical(value)), a)
    ensures Distinct(AgentAliases(value))
  {
    var one := AgentAdd([], value);
    var two := AgentAdd(one, DecodeHexAscii(value));
    AgentAddMembers([], value);
    AgentAddMembers(one, DecodeHexAscii(value));
    AgentAddMembers(two, Some(AgentCanonical(value)));
    hide Normalize, DecodeHexAscii, AgentCanonical, AgentAdd, IsForm, Distinct;
  }

  /** Every alias the API computes for a serial is one the agent computes too. */
  lemma ApiAliasesAreAgentAliases(value: Option<string>)
    ensures forall a :: a in ApiAliases(value) ==> a in AgentAliases(value)
  {
    var decoded := DecodeHexAscii(value);
    CanonicalsAgree(value);
    if decoded.Some? {
      HexHasNoVendor(value);
    }
    ApiMembers(value);
    AgentMembers(value);
    hide Normalize, DecodeHexAscii, StripVendorPrefix, AgentCanonical, ApiAliases, AgentAliases;
  }

  /** Whatever the API matches, the agent's alias sets match too. */
  lemma MatchesCarryOver(left: Option<string>, right: Option<string>)
    ensures SerialsMatch(left, right) ==> exists a :: a in AgentAliases(left) && a in AgentAliases(right)
  {
    if SerialsMatch(left, right) {
      var a :| a in ApiAliases(left) && a in ApiAliases(right);
      ApiAliasesAreAgentAliases(left);
      ApiAliasesAreAgentAliases(right);
      assert a in AgentAliases(left) && a in AgentAliases(right);
    }
  }

  /** Neither list repeats an alias or holds an empty one, and the canonical form is always listed. */
  lemma AliasListsAreSets(value: Option<string>)
    ensures Distinct(ApiAliases(value)) && Distinct(AgentAliases(value))
    ensures CanonicalSerial(value) != "" ==> CanonicalSerial(value) in ApiAliases(value)
  {
    ApiMembers(value);
    AgentMembers(value);
    hide *;
  }

  // ----- hexadecimal encodings -----

  function HexDigit(v: int, upper: bool): char
    requires 0 <= v < 16
  {
    if v < 10 then (v + '0' as int) as char
    else if upper then (v - 10 + 'A' as int) as char else (v - 10 + 'a' as int) as char
  }

  function HexEncode(s: string, upper: bool): string
    requires forall c :: c in s ==> IsPrintable(c)
  {
    if s == "" then ""
    else
      assert IsPrintable(s[0]);
      assert 32 <= s[0] as int < 127;
      [HexDigit(s[0] as int / 16, upper), HexDigit(s[0] as int % 16, upper)] + HexEncode(s[1..], upper)
  }

  lemma HexStep(s: string, upper: bool)
    requires s != "" && forall c :: c in s ==> IsPrintable(c)
    ensures var hi, lo := s[0] as int / 16, s[0] as int % 16;
            && 0 <= hi < 16 && 0 <= lo < 16 && 16 * hi + lo == s[0] as int
            && HexEncode(s, upper) == [HexDigit(hi, upper)] + ([HexDigit(lo, upper)] + HexEncode(s[1..], upper))
  {
    assert s[0] in s;
  }

  /** Case and separators aside, every encoding is the upper-case one. */
  lemma {:induction false} HexSqueezes(s: string, upper: bool)
    requires forall c :: c in s ==> IsPrintable(c)
    ensures var hex := HexEncode(s, upper);
            |hex| == 2 * |s| && (forall c :: c in hex ==> !IsSpace(c)) && Squeeze(hex) == HexEncode(s, true)
  {
    if s != "" {
      HexSqueezes(s[1..], upper);
      HexStep(s, upper);
      HexStep(s, true);
      var hi, lo, rest := s[0] as int / 16, s[0] as int % 16, HexEncode(s[1..], upper);
      HexDigitFacts(hi, upper);
      HexDigitFacts(lo, upper);
      hide HexEncode, HexDigit, IsSpace, Upper, IsSeparator, IsPrintable;
      SqueezePair(HexDigit(hi, upper), HexDigit(lo, upper), rest);
    }
  }

  lemma SqueezePair(a: char, b: char, rest: string)
    requires !IsSeparator(Upper(a)) && !IsSeparator(Upper(b)) && !IsSeparator(a) && !IsSeparator(b)
    ensures Squeeze([a] + ([b] + rest)) == [Upper(a)] + ([Upper(b)] + Squeeze(rest))
  {
    assert ([a] + ([b] + rest))[1..] == [b] + rest && ([b] + rest)[1..] == rest;
    hide IsSeparator, Upper;
  }

  /** The upper-case encoding is hexadecimal and decodes to what it encodes. */
  lemma {:induction false} HexDecodes(s: string)
    requires forall c :: c in s ==> IsPrintable(c)
    ensures (forall c :: c in HexEncode(s, true) ==> IsHexDigit(c)) && Unhex(HexEncode(s, true)) == s
  {
    if s != "" {
      HexDecodes(s[1..]);
      HexStep(s, true);
      var hi, lo, rest := s[0] as int / 16, s[0] as int % 16, HexEncode(s[1..], true);
      HexDigitFacts(hi, true);
      HexDigitFacts(lo, true);
      hide HexEncode, HexDigit, IsHexDigit, HexValue, IsPrintable;
      assert HexEncode(s, true)[2..] == rest;
    }
  }

  lemma HexNormalForm(s: string, upper: bool)
    requires forall c :: c in s ==> IsPrintable(c)
    ensures var hex := HexEncode(s, upper);
            && |hex| == 2 * |s|
            && (forall c :: c in hex ==> !IsSpace(c))
            && Squeeze(hex) == HexEncode(s, true)
            && (forall c :: c in HexEncode(s, true) ==> IsHexDigit(c))
            && Unhex(HexEncode(s, true)) == s
  {
    HexSqueezes(s, upper);
    HexDecodes(s);
    hide *;
  }

  lemma HexDigitFacts(v: int, upper: bool)
    requires 0 <= v < 16
    ensures !IsSpace(HexDigit(v, upper)) && Upper(HexDigit(v, upper)) == HexDigit(v, true)
    ensures IsHexDigit(HexDigit(v, true)) && HexValue(HexDigit(v, true)) == v
    ensures !IsSeparator(HexDigit(v, true))
  {
  }

  lemma NothingToStrip(s: string)
    requires forall c :: c in s ==> !IsSpace(c)
    ensures StripRight(StripLeft(s)) == s
  {
    if s != "" {
      assert s[0] in s && s[|s| - 1] in s;
    }
  }

  lemma HexNormalizes(s: string, upper: bool)
    requires forall c :: c in s ==> IsPrintable(c)
    ensures Normalize(Some(HexEncode(s, upper))) == HexEncode(s, true)
  {
    HexNormalForm(s, upper);
    NothingToStrip(HexEncode(s, upper));
    hide HexEncode, Squeeze, IsSpace, IsPrintable, StripLeft, StripRight, Unhex, IsHexDigit;
  }

  lemma DecodesAs(value: Option<string>, s: string)
    requires s != "" && forall c :: c in s ==> IsPrintable(c)
    requires var clean := Normalize(value);
             && |clean| >= 8 && |clean| % 2 == 0 && (forall c :: c in clean ==> IsHexDigit(c)) && Unhex(clean) == s
    ensures DecodeHexAscii(value) == Some(s)
  {
    hide Unhex, Normalize, IsHexDigit, IsPrintable;
  }

  /** The hexadecimal encoding of a printable serial of four characters or more decodes to it exactly. */
  lemma HexRoundTrip(s: string, upper: bool)
    requires |s| >= 4 && forall c :: c in s ==> IsPrintable(c)
    ensures DecodeHexAscii(Some(HexEncode(s, upper))) == Some(s)
  {
    hide *;
    HexNormalizes(s, upper);
    HexNormalForm(s, true);
    DecodesAs(Some(HexEncode(s, upper)), s);
  }

  /** So such a serial matches its own encoding exactly when its normal form is not empty. */
  lemma HexEncodingMatches(s: string, upper: bool)
    requires |s| >= 4 && forall c :: c in s ==> IsPrintable(c)
    ensures Normalize(Some(s)) != "" ==> SerialsMatch(Some(s), Some(HexEncode(s, upper)))
    ensures Normalize(Some(s)) == "" ==> ApiAliases(Some(s)) == [] && !SerialsMatch(Some(s), Some(HexEncode(s, upper)))
  {
    HexRoundTrip(s, upper);
    HexNormalForm(s, upper);
    var a := Normalize(Some(s));
    ApiMembers(Some(s));
    ApiMembers(Some(HexEncode(s, upper)));
    if a == "" {
      ShortIsNotHex(Some(s));
    } else {
      hide Normalize, DecodeHexAscii, ApiAliases;
      assert a in ApiAliases(Some(s)) && a in ApiAliases(Some(HexEncode(s, upper)));
    }
  }

  /** A serial with an empty normal form has no aliases at all. */
  lemma ShortIsNotHex(value: Option<string>)
    requires Normalize(value) == ""
    ensures DecodeHexAscii(value) == None && ApiAliases(value) == []
  {
    assert Or(DecodeHexAscii(value), value) == value;
  }

  lemma HexDigitOf(c: char)
    requires IsHexDigit(c)
    ensures HexDigit(HexValue(c), true) == c
  {
  }

  /** The first two digits and the character they stand for. */
  lemma UnhexPair(digits: string)
    requires |digits| >= 2 && forall c :: c in digits ==> IsHexDigit(c)
    ensures forall c :: c in digits[2..] ==> IsHexDigit(c)
    ensures var text := Unhex(digits);
            && text != "" && text[1..] == Unhex(digits[2..])
            && 0 <= text[0] as int / 16 < 16 && 0 <= text[0] as int % 16 < 16
            && HexDigit(text[0] as int / 16, true) == digits[0] && HexDigit(text[0] as int % 16, true) == digits[1]
  {
    assert digits[0] in digits && digits[1] in digits;
    HexDigitOf(digits[0]);
    HexDigitOf(digits[1]);
    var hi, lo := HexValue(digits[0]), HexValue(digits[1]);
    assert (16 * hi + lo) / 16 == hi && (16 * hi + lo) % 16 == lo;
    hide HexDigit, HexValue, IsHexDigit;
  }

  /** Reading pairs of digits and writing them again gives the digits back. */
  lemma {:induction false} UnhexEncodes(digits: string)
    requires |digits| % 2 == 0 && forall c :: c in digits ==> IsHexDigit(c)
    requires forall c :: c in Unhex(digits) ==> IsPrintable(c)
    ensures |digits| == 2 * |Unhex(digits)| && HexEncode(Unhex(digits), true) == digits
  {
    if digits != "" {
      UnhexPair(digits);
      var text := Unhex(digits);
      assert forall c :: c in text[1..] ==> c in text;
      HexStep(text, true);
      hide IsPrintable, IsHexDigit, Unhex, HexDigit, HexEncode;
      UnhexEncodes(digits[2..]);
      assert digits == [digits[0]] + ([digits[1]] + digits[2..]);
    }
  }

  lemma DecodedIsEncoding(value: Option<string>, text: string)
    requires DecodeHexAscii(value) == Some(text)
    ensures |text| >= 4 && (forall c :: c in text ==> IsPrintable(c)) && Normalize(value) == HexEncode(text, true)
  {
    var clean := Normalize(value);
    hide Normalize, HexEncode, IsHexDigit, IsPrintable;
    assert |clean| % 2 == 0 && |clean| >= 8 && (forall c :: c in clean ==> IsHexDigit(c)) && Unhex(clean) == text;
    assert forall c :: c in text ==> IsPrintable(c);
    hide DecodeHexAscii, Unhex;
    UnhexEncodes(clean);
  }

  lemma EncodingIsDecoded(value: Option<string>, text: string)
    requires |text| >= 4 && (forall c :: c in text ==> IsPrintable(c)) && Normalize(value) == HexEncode(text, true)
    ensures DecodeHexAscii(value) == Some(text)
  {
    hide *;
    HexNormalForm(text, true);
    DecodesAs(value, text);
  }

  /** All characters are printable ASCII. */
  predicate Printable(text: string) {
    forall c :: c in text ==> 32 <= c as int <= 126
  }

  lemma PrintableIs(text: string)
    ensures Printable(text) <==> forall c :: c in text ==> IsPrintable(c)
  {
  }

  /**
   A serial decodes to a text exactly if its normal form is the text's encoding, the text being printable and at least
   four characters long.
   */
  lemma DecodesIff(value: Option<string>, text: string)
    ensures DecodeHexAscii(value) == Some(text) <==>
            |text| >= 4 && Printable(text) && (PrintableIs(text); Normalize(value) == HexEncode(text, true))
  {
    PrintableIs(text);
    hide *;
    if DecodeHexAscii(value) == Some(text) {
      DecodedIsEncoding(value, text);
    }
    if |text| >= 4 && Printable(text) && Normalize(value) == HexEncode(text, true) {
      EncodingIsDecoded(value, text);
    }
  }

  // ----- what the normal form is -----

  /** The white space of ASCII. */
  predicate Blank(c: char) {
    c as int in {9, 10, 11, 12, 13, 28, 29, 30, 31, 32}
  }

  ghost predicate AllBlank(s: string) {
    forall c :: c in s ==> Blank(c)
  }

  lemma {:induction false} StripsLeft(left: string, s: string)
    requires AllBlank(left) && (s != "" ==> !Blank(s[0]))
    ensures StripLeft(left + s) == s
  {
    if left == "" {
      assert left + s == s;
    } else {
      assert forall c :: c in left[1..] ==> c in left;
      assert (left + s)[1..] == left[1..] + s && left[0] in left;
      StripsLeft(left[1..], s);
    }
  }

  lemma {:induction false} StripsRight(s: string, right: string)
    requires AllBlank(right) && (s != "" ==> !Blank(s[|s| - 1]))
    ensures StripRight(s + right) == s
  {
    if right == "" {
      assert s + right == s;
    } else {
      var all := s + right;
      assert forall c :: c in right[..|right| - 1] ==> c in right;
      assert all[..|all| - 1] == s + right[..|right| - 1] && right[|right| - 1] in right;
      StripsRight(s, right[..|right| - 1]);
    }
  }

  /** White space around a serial does not matter. */
  lemma NormalizeStrips(left: string, s: string, right: string)
    requires AllBlank(left) && AllBlank(right) && s != "" && !Blank(s[0]) && !Blank(s[|s| - 1])
    ensures Normalize(Some(left + (s + right))) == Squeeze(s)
  {
    assert (s + right)[0] == s[0];
    StripsLeft(left, s + right);
    StripsRight(s, right);
    hide StripLeft, StripRight, Squeeze, Blank;
  }

  /** And a serial of nothing else has an empty normal form. */
  lemma NormalizeBlank(s: string)
    requires AllBlank(s)
    ensures Normalize(Some(s)) == ""
  {
    StripsLeft(s, "");
    assert s + "" == s;
    assert StripRight("") == "" && Squeeze("") == "";
    hide StripLeft, StripRight, Squeeze, Blank;
  }

  lemma SqueezeFirst(c: char, s: string)
    ensures Squeeze([c] + s) == Squeeze([c]) + Squeeze(s)
  {
    assert ([c] + s)[1..] == s && [c][1..] == "";
    hide IsSeparator, Upper;
  }

  /** Inside, each character counts for itself: separators not at all, and letters in upper case. */
  lemma {:induction false} SqueezeSplits(a: string, b: string)
    ensures Squeeze(a + b) == Squeeze(a) + Squeeze(b)
  {
    if a == "" {
      assert a + b == b;
    } else {
      assert a + b == [a[0]] + (a[1..] + b) && a == [a[0]] + a[1..];
      SqueezeFirst(a[0], a[1..]);
      SqueezeFirst(a[0], a[1..] + b);
      SqueezeSplits(a[1..], b);
      hide Squeeze;
    }
  }

  lemma SqueezeOne(c: char)
    ensures Squeeze([c]) == if c in " _-" then "" else if 'a' <= c <= 'z' then [(c as int - 32) as char] else [c]
  {
    assert [c][1..] == "";
  }

  /** A vendor prefix is dropped exactly in front of a W that five more characters follow. */
  lemma VendorPrefixDropped(value: string)
    ensures StripVendorPrefix(value) ==
            if |value| >= 9 && value[..4] == "WDCW" then value[3..]
            else if |value| >= 8 && value[..3] == "WDW" then value[2..] else value
  {
    assert |value| >= 4 ==> (value[..4] == "WDCW" <==> "WDC" <= value && value[3] == 'W');
    assert |value| >= 3 ==> (value[..3] == "WDW" <==> "WD" <= value && value[2] == 'W');
  }
}
