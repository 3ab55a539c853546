/** What canonical texts look like: lists and objects with their commas, and strings
    that a reader of section 7 of RFC 8259 reads back. */
module JsonText {
  import opened Wrappers
  import opened CanonicalJson

  // ------------------------------------------------------------- the structure

  function CommaJoined(parts: seq<string>): string {
    if parts == [] then "" else if |parts| == 1 then parts[0] else parts[0] + "," + CommaJoined(parts[1..])
  }

  ghost function ItemTexts(items: seq<Json>): (parts: seq<string>)
    ensures |parts| == |items| && forall i | 0 <= i < |items| :: parts[i] == Canonical(items[i])
  {
    seq(|items|, i requires 0 <= i < |items| => Canonical(items[i]))
  }

  ghost function FieldTexts(v: Json, keys: seq<string>): (parts: seq<string>)
    requires v.Object? && forall i | 0 <= i < |keys| :: keys[i] in v.fields
    ensures |parts| == |keys|
    ensures forall i | 0 <= i < |keys| :: parts[i] == FieldText(v, keys[i])
  {
    seq(|keys|, i requires 0 <= i < |keys| => FieldText(v, keys[i]))
  }

  /** The parts, each behind a comma but for the first of all. */
  function Separated(first: bool, parts: seq<string>): string {
    if parts == [] then "" else Separator(first) + parts[0] + Separated(false, parts[1..])
  }

  lemma {:induction false} SeparatedIsJoined(parts: seq<string>)
    ensures Separated(true, parts) == CommaJoined(parts)
    ensures Separated(false, parts) == if parts == [] then "" else "," + CommaJoined(parts)
  {
    if parts != [] {
      SeparatedIsJoined(parts[1..]);
    }
  }

  lemma ItemFirst(first: bool, items: seq<Json>, rest: string)
    requires items != []
    ensures PrintedItems(first, items, rest) ==
            Separator(first) + Canonical(items[0]) + PrintedItems(false, items[1..], rest)
  {
    var after := PrintedItems(false, items[1..], rest);
    PrintedSplit(items[0], "", after);
    assert "" + after == after;
    Regroup(Separator(first), Canonical(items[0]), after);
  }

  lemma ItemTextsFirst(items: seq<Json>)
    requires items != []
    ensures ItemTexts(items) == [Canonical(items[0])] + ItemTexts(items[1..])
  {
  }

  lemma {:induction false} ItemsAreSeparated(first: bool, items: seq<Json>, rest: string)
    ensures PrintedItems(first, items, rest) == Separated(first, ItemTexts(items)) + rest
    decreases |items|
  {
    if items == [] {
      assert ItemTexts(items) == [] && Separated(first, []) == "";
    } else {
      ItemFirst(first, items, rest);
      ItemsAreSeparated(false, items[1..], rest);
      ItemTextsFirst(items);
      SeparatedFirst(first, Canonical(items[0]), ItemTexts(items[1..]), rest);
    }
  }

  /** A list prints as its items between brackets, with commas between them, */
  lemma ListText(items: seq<Json>)
    ensures Canonical(List(items)) == "[" + CommaJoined(ItemTexts(items)) + "]"
  {
    ItemsAreSeparated(true, items, "]");
    SeparatedIsJoined(ItemTexts(items));
    assert "]" + "" == "]";
  }

  lemma QuotedAlone(text: string)
    ensures Quoted(text, "") == "\"" + Escaped(text, "") + "\""
  {
    var mark := "\"";
    EscapedSplit(text, "", mark);
    assert "" + mark == mark && mark + "" == mark;
    Regroup(mark, Escaped(text, ""), mark);
  }

  lemma QuotedIs(text: string, rest: string)
    ensures Quoted(text, rest) == "\"" + Escaped(text, "") + "\"" + rest
  {
    QuotedAlone(text);
    QuotedSplit(text, "", rest);
    assert "" + rest == rest;
  }

  ghost function FieldText(v: Json, key: string): string
    requires v.Object? && key in v.fields
  {
    ("\"" + Escaped(key, "") + "\"") + ":" + Canonical(v.fields[key])
  }

  lemma FieldFirst(first: bool, v: Json, keys: seq<string>, rest: string)
    requires v.Object? && keys != [] && Keys(keys) <= v.fields.Keys && keys[0] in v.fields
    ensures Keys(keys[1..]) <= v.fields.Keys
    ensures PrintedFields(first, v, keys, rest) ==
            Separator(first) + FieldText(v, keys[0]) + PrintedFields(false, v, keys[1..], rest)
  {
    var after := PrintedFields(false, v, keys[1..], rest);
    FieldStep(first, v, keys, rest);
    QuotedIs(keys[0], "");
    Flatten("", Separator(first), Quoted(keys[0], ""), Canonical(v.fields[keys[0]]), after);
    FieldRegrouped(Separator(first), Quoted(keys[0], ""), Canonical(v.fields[keys[0]]), after);
  }

  lemma FieldRegrouped(sep: string, name: string, value: string, after: string)
    ensures sep + (name + (":" + (value + after))) == sep + (name + ":" + value) + after
  {
  }

  lemma FieldTextsFirst(v: Json, keys: seq<string>)
    requires v.Object? && keys != [] && forall i | 0 <= i < |keys| :: keys[i] in v.fields
    ensures FieldTexts(v, keys) == [FieldText(v, keys[0])] + FieldTexts(v, keys[1..])
  {
  }

  lemma SeparatedFirst(first: bool, part: string, parts: seq<string>, rest: string)
    ensures Separator(first) + part + (Separated(false, parts) + rest) == Separated(first, [part] + parts) + rest
  {
    assert ([part] + parts)[1..] == parts;
  }

  lemma {:induction false} FieldsAreSeparated(first: bool, v: Json, keys: seq<string>, rest: string)
    requires v.Object? && Keys(keys) <= v.fields.Keys && forall i | 0 <= i < |keys| :: keys[i] in v.fields
    ensures PrintedFields(first, v, keys, rest) == Separated(first, FieldTexts(v, keys)) + rest
    decreases |keys|
  {
    if keys == [] {
      assert FieldTexts(v, keys) == [] && Separated(first, []) == "";
    } else {
      FieldFirst(first, v, keys, rest);
      FieldsAreSeparated(false, v, keys[1..], rest);
      FieldTextsFirst(v, keys);
      SeparatedFirst(first, FieldText(v, keys[0]), FieldTexts(v, keys[1..]), rest);
    }
  }

  /** an object as its fields between braces in ascending order of their names, */
  lemma ObjectText(v: Json, keys: seq<string>)
    requires v.Object? && Ascending(keys) && Keys(keys) == v.fields.Keys
    ensures forall i | 0 <= i < |keys| :: keys[i] in v.fields
    ensures Canonical(v) == "{" + CommaJoined(FieldTexts(v, keys)) + "}"
  {
    AscendingUnique(keys, SortedKeys(v.fields.Keys));
    assert forall i | 0 <= i < |keys| :: keys[i] in Keys(keys);
    ObjectFields(v, keys);
    FieldsText(v, keys);
  }

  lemma FieldsText(v: Json, keys: seq<string>)
    requires v.Object? && Keys(keys) <= v.fields.Keys && forall i | 0 <= i < |keys| :: keys[i] in v.fields
    ensures "{" + PrintedFields(true, v, keys, "}") == "{" + CommaJoined(FieldTexts(v, keys)) + "}"
  {
    FieldsAreSeparated(true, v, keys, "}");
    SeparatedIsJoined(FieldTexts(v, keys));
  }

  lemma ObjectFields(v: Json, keys: seq<string>)
    requires v.Object? && keys == SortedKeys(v.fields.Keys)
    ensures Canonical(v) == "{" + PrintedFields(true, v, keys, "}")
  {
    assert "}" + "" == "}";
  }

  /** and the others as their one word, numeral, or quoted text. */
  lemma PlainText(text: string, numeral: Numeral)
    ensures Canonical(Null) == "null" && Canonical(Bool(true)) == "true" && Canonical(Bool(false)) == "false"
    ensures Canonical(Number(numeral)) == numeral
    ensures Canonical(Text(text)) == "\"" + Escaped(text, "") + "\""
  {
    QuotedIs(text, "");
  }

  /** Names are in the order of their first different characters, a shorter name before
      the longer ones that it begins. */
  lemma {:induction false} KeyOrderIs(a: string, b: string)
    ensures CanonicalJson.Before(a, b) <==>
            exists k :: 0 <= k <= |a| && k < |b| && a[..k] == b[..k] && (k == |a| || a[k] < b[k])
  {
    if a != "" && b != "" {
      KeyOrderIs(a[1..], b[1..]);
      if k :| 0 <= k <= |a| && k < |b| && a[..k] == b[..k] && (k == |a| || a[k] < b[k]) {
        assert k > 0 ==> a[0] == a[..k][0] == b[..k][0] == b[0] && a[1..][..k - 1] == a[..k][1..] == b[..k][1..] == b[1..][..k - 1];
      }
      if a[0] == b[0] {
        if j :| 0 <= j <= |a[1..]| && j < |b[1..]| && a[1..][..j] == b[1..][..j] && (j == |a[1..]| || a[1..][j] < b[1..][j]) {
          assert a[..j + 1] == [a[0]] + a[1..][..j] && b[..j + 1] == [b[0]] + b[1..][..j];
        }
      } else {
        assert a[..0] == b[..0];
      }
    } else {
      assert a[..0] == "";
      assert b != "" ==> a[..0] == b[..0];
    }
  }

  // ---------------------------------------------------------------- the strings

  function HexValue(c: char): Option<nat> {
    if '0' <= c <= '9' then Some(c as int - '0' as int)
    else if 'a' <= c <= 'f' then Some(c as int - 'a' as int + 10)
    else if 'A' <= c <= 'F' then Some(c as int - 'A' as int + 10)
    else None
  }

  /** What four hexadecimal digits stand for, unless it is half of a surrogate pair. */
  function HexChar(a: char, b: char, c: char, d: char): Option<char> {
    match (HexValue(a), HexValue(b), HexValue(c), HexValue(d))
    case (Some(p), Some(q), Some(r), Some(s)) =>
      var n := ((p * 16 + q) * 16 + r) * 16 + s;
      if n < 0xD800 || 0xE000 <= n < 0x10000 then Some(n as char) else None
    case _ => None
  }

  /** The character that a backslash and this one stand for. */
  function EscapeValue(c: char): Option<char> {
    if c == '\"' || c == '\\' || c == '/' then Some(c)
    else if c == 'b' then Some(8 as char)
    else if c == 'f' then Some(12 as char)
    else if c == 'n' then Some(10 as char)
    else if c == 'r' then Some(13 as char)
    else if c == 't' then Some(9 as char)
    else None
  }

  function Then(c: Option<char>, rest: Option<string>): Option<string> {
    if c.Some? && rest.Some? then Some([c.value] + rest.value) else None
  }

  /** The characters between two quotation marks, read by section 7 of RFC 8259. */
  function Unescaped(body: string): Option<string> {
    if body == "" then Some("")
    else if body[0] < ' ' || body[0] == '\"' then None
    else if body[0] != '\\' then Then(Some(body[0]), Unescaped(body[1..]))
    else if |body| == 1 then None
    else if body[1] != 'u' then Then(EscapeValue(body[1]), Unescaped(body[2..]))
    else if |body| < 6 then None
    else Then(HexChar(body[2], body[3], body[4], body[5]), Unescaped(body[6..]))
  }

  lemma HexDigits(n: nat)
    requires n < 16
    ensures HexValue(HexDigit(n)) == Some(n)
  {
  }

  lemma HexRead(c: char)
    requires c as int < 0xD800
    ensures var h := Hex4(c as int); |h| == 4 && HexChar(h[0], h[1], h[2], h[3]) == Some(c)
  {
    var n := c as int;
    HexDigits(n / 16 / 16 / 16);
    HexDigits(n / 16 / 16 % 16);
    HexDigits(n / 16 % 16);
    HexDigits(n % 16);
  }

  lemma HexEscapeRead(c: char, rest: string)
    requires c as int < 0xD800
    ensures Unescaped(['\\', 'u'] + Hex4(c as int) + rest) == Then(Some(c), Unescaped(rest))
  {
    var h := Hex4(c as int);
    var text := ['\\', 'u'] + h + rest;
    HexRead(c);
    assert text[2] == h[0] && text[3] == h[1] && text[4] == h[2] && text[5] == h[3] && text[6..] == rest;
  }

  lemma PlainRead(c: char, rest: string)
    requires c >= ' ' && c != '\"' && c != '\\'
    ensures Unescaped([c] + rest) == Then(Some(c), Unescaped(rest))
  {
    assert ([c] + rest)[1..] == rest;
  }

  lemma ShortRead(c: char, letter: char, rest: string)
    requires EscapeValue(letter) == Some(c)
    ensures Unescaped(['\\', letter] + rest) == Then(Some(c), Unescaped(rest))
  {
    assert (['\\', letter] + rest)[2..] == rest;
  }

  lemma EscapeRead(c: char, rest: string)
    ensures Unescaped(Escape(c) + rest) == Then(Some(c), Unescaped(rest))
  {
    if |Escape(c)| == 1 {
      PlainRead(c, rest);
    } else if |Escape(c)| == 2 {
      assert Escape(c) == ['\\', Escape(c)[1]];
      ShortRead(c, Escape(c)[1], rest);
    } else {
      HexEscapeRead(c, rest);
      assert Escape(c) == ['\\', 'u'] + Hex4(c as int);
    }
  }

  /** What a string prints as is read back as the string, */
  lemma {:induction false} EscapedIsRead(text: string)
    ensures Unescaped(Escaped(text, "")) == Some(text)
  {
    if text != "" {
      EscapedIsRead(text[1..]);
      EscapeRead(text[0], Escaped(text[1..], ""));
      assert text == [text[0]] + text[1..];
    }
  }

  /** Neither a control character nor one that ends or begins something in HTML or in
      a script. */
  predicate Harmless(c: char) {
    c >= ' ' && c != '<' && c != '>' && c != '&' && c as int != 0x2028 && c as int != 0x2029
  }

  /** and has no character in it that would have to be escaped in HTML or a script. */
  lemma {:induction false} EscapedIsHarmless(text: string)
    ensures forall i | 0 <= i < |Escaped(text, "")| :: Harmless(Escaped(text, "")[i])
  {
    if text != "" {
      EscapedIsHarmless(text[1..]);
      EscapeIsHarmless(text[0]);
    }
  }

  lemma HexIsHarmless(n: nat)
    requires n < 0x10000
    ensures var text := ['\\', 'u'] + Hex4(n); forall i | 0 <= i < |text| :: Harmless(text[i])
  {
    assert forall k | 0 <= k < 16 :: Harmless(HexDigit(k));
  }

  lemma EscapeIsHarmless(c: char)
    ensures forall i | 0 <= i < |Escape(c)| :: Harmless(Escape(c)[i])
  {
    if |Escape(c)| > 2 {
      HexIsHarmless(c as int);
      assert Escape(c) == ['\\', 'u'] + Hex4(c as int);
    }
  }

  /** Every other character is printed as it is, with a short escape where there is
      one. */
  lemma EscapeIs(c: char)
    ensures Harmless(c) && c != '\"' && c != '\\' ==> Escape(c) == [c]
    ensures |Escape(c)| == 2 <==> c as int in {8, 9, 10, 12, 13, 34, 92}
    ensures |Escape(c)| > 2 ==>
              && |Escape(c)| == 6 && Escape(c)[..2] == "\\u"
              && forall i | 2 <= i < 6 :: '0' <= Escape(c)[i] <= '9' || 'a' <= Escape(c)[i] <= 'f'
  {
    if |Escape(c)| > 2 {
      assert Escape(c) == ['\\', 'u'] + Hex4(c as int);
    }
  }
}
