/** The canonical printer that feeds the audit hash: object keys in ascending
    order, no white space, strings escaped as Go's encoding/json escapes them.

    Texts are sequences of Unicode scalar values, so a `string` here is a valid
    UTF-8 string of the original, and code-point order is its byte order. */
module CanonicalJson {

  // ------------------------------------------------------------------ values

  predicate NumeralChar(c: char) {
    '0' <= c <= '9' || c == '-' || c == '+' || c == '.' || c == 'e' || c == 'E'
  }

  /** At least every number of section 6 of RFC 8259; one numeral stands for one
      number. */
  predicate IsNumeral(text: string) {
    && text != ""
    && (text[0] == '-' || '0' <= text[0] <= '9')
    && forall i | 0 <= i < |text| :: NumeralChar(text[i])
  }

  type Numeral = text: string | IsNumeral(text) witness "0"

  datatype Json =
    | Null
    | Bool(truth: bool)
    | Number(numeral: Numeral)
    | Text(text: string)
    | List(items: seq<Json>)
    | Object(fields: map<string, Json>)

  // -------------------------------------------------------------- key order

  /** The order of `sort.Strings`. */
  predicate Before(a: string, b: string) {
    if b == "" then false
    else if a == "" then true
    else a[0] < b[0] || (a[0] == b[0] && Before(a[1..], b[1..]))
  }

  lemma {:induction false} BeforeTransitive(a: string, b: string, c: string)
    requires Before(a, b) && Before(b, c)
    ensures Before(a, c)
  {
    if a != "" && a[0] == b[0] == c[0] {
      BeforeTransitive(a[1..], b[1..], c[1..]);
    }
  }

  lemma {:induction false} BeforeTotal(a: string, b: string)
    ensures !(Before(a, b) && Before(b, a))
    ensures Before(a, b) || Before(b, a) || a == b
    ensures !Before(a, a)
  {
    if a != "" && b != "" {
      BeforeTotal(a[1..], b[1..]);
      assert a == [a[0]] + a[1..] && b == [b[0]] + b[1..];
    }
    if a != "" {
      BeforeTotal(a[1..], a[1..]);
    }
  }

  ghost predicate Ascending(keys: seq<string>) {
    forall i, j | 0 <= i < j < |keys| :: Before(keys[i], keys[j])
  }

  function Keys(keys: seq<string>): (s: set<string>) {
    set i | 0 <= i < |keys| :: keys[i]
  }

  /** An ascending sequence is determined by its elements: key sorting leaves
      nothing of the order in which a map was walked. */
  lemma {:induction false} AscendingUnique(a: seq<string>, b: seq<string>)
    requires Ascending(a) && Ascending(b) && Keys(a) == Keys(b)
    ensures a == b
  {
    NoKeys(a);
    NoKeys(b);
    if a != [] && b != [] {
      HeadIsLeast(a, b);
      HeadIsLeast(b, a);
      BeforeTotal(a[0], b[0]);
      TailKeys(a);
      TailKeys(b);
      AscendingUnique(a[1..], b[1..]);
      assert a == [a[0]] + a[1..] && b == [b[0]] + b[1..];
    }
  }

  lemma NoKeys(a: seq<string>)
    ensures Keys(a) == {} <==> a == []
  {
    if a != [] {
      assert a[0] in Keys(a);
    }
  }

  lemma HeadIsLeast(a: seq<string>, b: seq<string>)
    requires a != [] && b != [] && Ascending(a) && Keys(a) == Keys(b)
    ensures a[0] == b[0] || Before(a[0], b[0])
  {
    assert b[0] in Keys(b);
    var i :| 0 <= i < |a| && a[i] == b[0];
  }

  lemma TailKeys(a: seq<string>)
    requires a != [] && Ascending(a)
    ensures Keys(a[1..]) == Keys(a) - {a[0]} && Ascending(a[1..])
  {
    forall k | k in Keys(a) - {a[0]} ensures k in Keys(a[1..]) {
      var i :| 0 <= i < |a| && a[i] == k;
      assert a[1..][i - 1] == k;
    }
    forall i | 1 <= i < |a| ensures a[i] != a[0] {
      BeforeTotal(a[0], a[i]);
    }
  }

  function Insert(key: string, sorted: seq<string>): seq<string> {
    if sorted == [] || Before(key, sorted[0]) then [key] + sorted
    else [sorted[0]] + Insert(key, sorted[1..])
  }

  lemma {:induction false} InsertAscends(key: string, sorted: seq<string>)
    requires Ascending(sorted) && key !in Keys(sorted)
    ensures Ascending(Insert(key, sorted)) && Keys(Insert(key, sorted)) == Keys(sorted) + {key}
  {
    var r := Insert(key, sorted);
    if sorted == [] {
      assert r[0] == key;
    } else if Before(key, sorted[0]) {
      forall j | 0 < j < |r| ensures Before(r[0], r[j]) {
        if j > 1 {
          BeforeTransitive(key, sorted[0], sorted[j - 1]);
        }
      }
      ConsKeys(key, sorted);
    } else {
      assert sorted[0] in Keys(sorted);
      BeforeTotal(key, sorted[0]);
      TailKeys(sorted);
      InsertAscends(key, sorted[1..]);
      var rest := Insert(key, sorted[1..]);
      forall j | 0 < j < |r| ensures Before(r[0], r[j]) {
        assert rest[j - 1] in Keys(rest);
        if rest[j - 1] != key {
          assert rest[j - 1] in Keys(sorted[1..]);
          var i :| 0 <= i < |sorted[1..]| && sorted[1..][i] == rest[j - 1];
          assert sorted[i + 1] == rest[j - 1];
        }
      }
      forall i, j | 0 < i < j < |r| ensures Before(r[i], r[j]) {
        assert r[i] == rest[i - 1] && r[j] == rest[j - 1];
      }
      ConsKeys(sorted[0], rest);
    }
  }

  lemma ConsKeys(key: string, keys: seq<string>)
    ensures Keys([key] + keys) == {key} + Keys(keys)
  {
    var r := [key] + keys;
    assert r[0] == key;
    assert forall i | 0 <= i < |keys| :: r[i + 1] == keys[i];
  }

  /** The keys of a map in ascending order. */
  ghost function SortedKeys(keys: set<string>): (sorted: seq<string>)
    ensures Ascending(sorted) && Keys(sorted) == keys
  {
    if keys == {} then []
    else
      var key :| key in keys;
      InsertAscends(key, SortedKeys(keys - {key}));
      Insert(key, SortedKeys(keys - {key}))
  }

  // --------------------------------------------------------------- printing

  /* Every printer below takes the text that follows, so that no statement
     about it needs to re-associate a concatenation. */

  function HexDigit(n: nat): char
    requires n < 16
  {
    if n < 10 then ('0' as int + n) as char else ('a' as int + n - 10) as char
  }

  function Hex4(n: nat): string
    requires n < 0x10000
  {
    [HexDigit(n / 16 / 16 / 16), HexDigit(n / 16 / 16 % 16), HexDigit(n / 16 % 16), HexDigit(n % 16)]
  }

  /** Control characters, the HTML characters and the two line separators. */
  predicate WrittenInHex(c: char) {
    c < ' ' || c == '<' || c == '>' || c == '&' || c as int == 0x2028 || c as int == 0x2029
  }

  function Escape(c: char): string {
    if c == '\"' || c == '\\' then ['\\', c]
    else if c as int == 8 then "\\b"
    else if c as int == 9 then "\\t"
    else if c as int == 10 then "\\n"
    else if c as int == 12 then "\\f"
    else if c as int == 13 then "\\r"
    else if WrittenInHex(c) then "\\u" + Hex4(c as int)
    else [c]
  }

  function Escaped(text: string, rest: string): string {
    if text == "" then rest else Escape(text[0]) + Escaped(text[1..], rest)
  }

  function Quoted(text: string, rest: string): string {
    "\"" + Escaped(text, "\"" + rest)
  }

  /** The text of `v` followed by `rest`. */
  ghost function Printed(v: Json, rest: string): string
    decreases v
  {
    match v
    case Null => "null" + rest
    case Bool(truth) => (if truth then "true" else "false") + rest
    case Number(numeral) => numeral + rest
    case Text(text) => Quoted(text, rest)
    case List(items) => "[" + PrintedItems(true, items, "]" + rest)
    case Object(fields) => "{" + PrintedFields(true, v, SortedKeys(fields.Keys), "}" + rest)
  }

  function Separator(first: bool): string {
    if first then "" else ","
  }

  ghost function PrintedItems(first: bool, items: seq<Json>, rest: string): string
    decreases items
  {
    if items == [] then rest
    else Separator(first) + Printed(items[0], PrintedItems(false, items[1..], rest))
  }

  ghost function PrintedFields(first: bool, v: Json, keys: seq<string>, rest: string): string
    requires v.Object? && Keys(keys) <= v.fields.Keys
    decreases v, |keys|
  {
    if keys == [] then rest
    else
      assert keys[0] in Keys(keys);
      assert Keys(keys[1..]) <= Keys(keys) by { TailIncluded(keys); }
      Separator(first) + Quoted(keys[0], ":" + Printed(v.fields[keys[0]], PrintedFields(false, v, keys[1..], rest)))
  }

  lemma TailIncluded(keys: seq<string>)
    requires keys != []
    ensures Keys(keys[1..]) <= Keys(keys)
  {
    forall k | k in Keys(keys[1..]) ensures k in Keys(keys) {
      var i :| 0 <= i < |keys[1..]| && keys[1..][i] == k;
      assert keys[i + 1] == k;
    }
  }

  /** The canonical text of a value. */
  ghost function Canonical(v: Json): string {
    Printed(v, "")
  }

  // ------------------------------------------------------ unique readability

  lemma HexDigitInjective(m: nat, n: nat)
    requires m < 16 && n < 16 && HexDigit(m) == HexDigit(n)
    ensures m == n
  {
  }

  lemma Hex4Injective(m: nat, n: nat)
    requires m < 0x10000 && n < 0x10000 && Hex4(m) == Hex4(n)
    ensures m == n
  {
    HexDigitInjective(m / 16 / 16 / 16, n / 16 / 16 / 16);
    HexDigitInjective(m / 16 / 16 % 16, n / 16 / 16 % 16);
    HexDigitInjective(m / 16 % 16, n / 16 % 16);
    HexDigitInjective(m % 16, n % 16);
    assert m / 16 / 16 == n / 16 / 16;
    assert m / 16 == n / 16;
  }

  /** Escapes are a prefix code, and none of them starts with a quote. */
  lemma EscapeCancels(c: char, d: char, r: string, t: string)
    requires Escape(c) + r == Escape(d) + t
    ensures c == d && r == t
  {
    var e, f := Escape(c), Escape(d);
    var all := e + r;
    assert all[0] == e[0] == f[0];
    if |e| == 1 || |f| == 1 {
      assert |e| == |f|;
    } else {
      assert all[1] == e[1] == f[1];
      assert |e| == |f|;
      if |e| == 6 {
        assert e[2..] == Hex4(c as int) && f[2..] == Hex4(d as int);
        assert e == all[..6] == f;
        Hex4Injective(c as int, d as int);
      }
    }
    assert e == all[..|e|] == f;
    assert r == all[|e|..] == t;
  }

  lemma EscapeOpens(c: char, r: string)
    ensures Escape(c) + r != "" && (Escape(c) + r)[0] != '\"'
  {
  }

  lemma {:induction false} EscapedCancels(a: string, b: string, r: string, t: string)
    requires Escaped(a, "\"" + r) == Escaped(b, "\"" + t)
    ensures a == b && r == t
  {
    if a == "" && b == "" {
      assert r == ("\"" + r)[1..] == ("\"" + t)[1..] == t;
    } else if a == "" {
      EscapeOpens(b[0], Escaped(b[1..], "\"" + t));
    } else if b == "" {
      EscapeOpens(a[0], Escaped(a[1..], "\"" + r));
    } else {
      EscapeCancels(a[0], b[0], Escaped(a[1..], "\"" + r), Escaped(b[1..], "\"" + t));
      EscapedCancels(a[1..], b[1..], r, t);
      assert a == [a[0]] + a[1..] && b == [b[0]] + b[1..];
    }
  }

  lemma QuotedCancels(a: string, b: string, r: string, t: string)
    requires Quoted(a, r) == Quoted(b, t)
    ensures a == b && r == t
  {
    assert Quoted(a, r)[1..] == Escaped(a, "\"" + r);
    assert Quoted(b, t)[1..] == Escaped(b, "\"" + t);
    EscapedCancels(a, b, r, t);
  }

  /** What may follow a value inside a canonical text. */
  predicate Ends(rest: string) {
    rest == "" || rest[0] == ',' || rest[0] == ']' || rest[0] == '}'
  }

  lemma LongerNumeral(a: Numeral, b: Numeral, r: string, t: string)
    requires |a| < |b| && a + r == b + t
    ensures !Ends(r)
  {
    assert (a + r)[|a|] == r[0] && (b + t)[|a|] == b[|a|];
    assert NumeralChar(b[|a|]);
  }

  lemma NumeralCancels(a: Numeral, b: Numeral, r: string, t: string)
    requires Ends(r) && Ends(t) && a + r == b + t
    ensures a == b && r == t
  {
    if |a| < |b| {
      LongerNumeral(a, b, r, t);
    } else if |b| < |a| {
      LongerNumeral(b, a, t, r);
    }
    assert a == (a + r)[..|a|] == (b + t)[..|a|] == b;
    DropPrefix(a, r, t);
  }

  /** The kind of a value, as its first character tells it. */
  function Kind(c: char): nat {
    if c == 'n' then 0
    else if c == 't' || c == 'f' then 1
    else if c == '\"' then 3
    else if c == '[' then 4
    else if c == '{' then 5
    else if c == '-' || '0' <= c <= '9' then 2
    else 6
  }

  lemma KindOfPrinted(v: Json, rest: string)
    ensures Printed(v, rest) != ""
    ensures Kind(Printed(v, rest)[0]) ==
              match v
              case Null => 0
              case Bool(_) => 1
              case Number(_) => 2
              case Text(_) => 3
              case List(_) => 4
              case Object(_) => 5
    ensures v.Bool? ==> Printed(v, rest)[0] == if v.truth then 't' else 'f'
  {
  }

  lemma DropPrefix(p: string, r: string, t: string)
    requires p + r == p + t
    ensures r == t
  {
    assert r == (p + r)[|p|..] == (p + t)[|p|..] == t;
  }

  /** Two values print to the same text only if they are the same value followed
      by the same text.  Every value but a number ends where its text says so; a
      number needs something that ends it. */
  lemma {:induction false} PrintedCancels(a: Json, b: Json, r: string, t: string)
    requires Printed(a, r) == Printed(b, t)
    requires a.Number? && b.Number? ==> Ends(r) && Ends(t)
    ensures a == b && r == t
    decreases a
  {
    KindOfPrinted(a, r);
    KindOfPrinted(b, t);
    match a
    case Null =>
      DropPrefix("null", r, t);
    case Bool(truth) =>
      DropPrefix(if truth then "true" else "false", r, t);
    case Number(numeral) =>
      NumeralCancels(numeral, b.numeral, r, t);
    case Text(text) =>
      QuotedCancels(text, b.text, r, t);
    case List(items) =>
      DropPrefix("[", PrintedItems(true, items, "]" + r), PrintedItems(true, b.items, "]" + t));
      ItemsCancel(true, items, b.items, r, t);
    case Object(fields) =>
      var ka, kb := SortedKeys(fields.Keys), SortedKeys(b.fields.Keys);
      DropPrefix("{", PrintedFields(true, a, ka, "}" + r), PrintedFields(true, b, kb, "}" + t));
      FieldsCancel(true, a, b, ka, kb, r, t);
      assert fields == b.fields;
  }

  lemma {:induction false} ItemsCancel(first: bool, a: seq<Json>, b: seq<Json>, r: string, t: string)
    requires PrintedItems(first, a, "]" + r) == PrintedItems(first, b, "]" + t)
    ensures a == b && r == t
    decreases a
  {
    if a == [] && b == [] {
      DropPrefix("]", r, t);
    } else if a == [] || b == [] {
      ItemsOpen(first, if a == [] then b else a, "]" + if a == [] then t else r);
    } else {
      var ra, rb := PrintedItems(false, a[1..], "]" + r), PrintedItems(false, b[1..], "]" + t);
      DropPrefix(Separator(first), Printed(a[0], ra), Printed(b[0], rb));
      ItemsEnd(a[1..], r);
      ItemsEnd(b[1..], t);
      PrintedCancels(a[0], b[0], ra, rb);
      ItemsCancel(false, a[1..], b[1..], r, t);
      assert a == [a[0]] + a[1..] && b == [b[0]] + b[1..];
    }
  }

  /** A non-empty item list does not start with the closing bracket. */
  lemma ItemsOpen(first: bool, a: seq<Json>, rest: string)
    requires a != []
    ensures PrintedItems(first, a, rest) != "" && PrintedItems(first, a, rest)[0] != ']'
  {
    KindOfPrinted(a[0], PrintedItems(false, a[1..], rest));
  }

  lemma ItemsEnd(a: seq<Json>, r: string)
    ensures Ends(PrintedItems(false, a, "]" + r))
  {
  }

  lemma FieldsOpen(first: bool, v: Json, keys: seq<string>, rest: string)
    requires v.Object? && keys != [] && Keys(keys) <= v.fields.Keys
    ensures PrintedFields(first, v, keys, rest) != "" && PrintedFields(first, v, keys, rest)[0] != '}'
  {
  }

  lemma FieldsEnd(v: Json, keys: seq<string>, r: string)
    requires v.Object? && Keys(keys) <= v.fields.Keys
    ensures Ends(PrintedFields(false, v, keys, "}" + r))
  {
  }

  lemma {:induction false} FieldsCancel(first: bool, a: Json, b: Json, ka: seq<string>, kb: seq<string>,
                                        r: string, t: string)
    requires a.Object? && b.Object? && Keys(ka) <= a.fields.Keys && Keys(kb) <= b.fields.Keys
    requires PrintedFields(first, a, ka, "}" + r) == PrintedFields(first, b, kb, "}" + t)
    ensures ka == kb && r == t
    ensures forall k | k in Keys(ka) :: a.fields[k] == b.fields[k]
    decreases a, |ka|
  {
    if ka == [] && kb == [] {
      DropPrefix("}", r, t);
    } else if ka == [] {
      FieldsOpen(first, b, kb, "}" + t);
    } else if kb == [] {
      FieldsOpen(first, a, ka, "}" + r);
    } else {
      TailIncluded(ka);
      TailIncluded(kb);
      assert ka[0] in Keys(ka) && kb[0] in Keys(kb);
      var ra, rb := PrintedFields(false, a, ka[1..], "}" + r), PrintedFields(false, b, kb[1..], "}" + t);
      var va, vb := a.fields[ka[0]], b.fields[kb[0]];
      DropPrefix(Separator(first), Quoted(ka[0], ":" + Printed(va, ra)), Quoted(kb[0], ":" + Printed(vb, rb)));
      QuotedCancels(ka[0], kb[0], ":" + Printed(va, ra), ":" + Printed(vb, rb));
      DropPrefix(":", Printed(va, ra), Printed(vb, rb));
      FieldsEnd(a, ka[1..], r);
      FieldsEnd(b, kb[1..], t);
      PrintedCancels(va, vb, ra, rb);
      FieldsCancel(false, a, b, ka[1..], kb[1..], r, t);
      assert ka == [ka[0]] + ka[1..] && kb == [kb[0]] + kb[1..];
      ConsKeys(ka[0], ka[1..]);
    }
  }

  /** Main result: the canonical text determines the value. */
  lemma CanonicalIffEqual(a: Json, b: Json)
    ensures Canonical(a) == Canonical(b) <==> a == b
  {
    if Canonical(a) == Canonical(b) {
      PrintedCancels(a, b, "", "");
    }
  }

  // ------------------------------------------------------ the printing loops

  lemma {:induction false} EscapedSplit(text: string, r: string, t: string)
    ensures Escaped(text, r + t) == Escaped(text, r) + t
  {
    if text != "" {
      EscapedSplit(text[1..], r, t);
      Regroup(Escape(text[0]), Escaped(text[1..], r), t);
    }
  }

  lemma Regroup(p: string, q: string, t: string)
    ensures p + (q + t) == (p + q) + t
  {
  }

  lemma QuotedSplit(text: string, r: string, t: string)
    ensures Quoted(text, r + t) == Quoted(text, r) + t
  {
    Regroup("\"", r, t);
    EscapedSplit(text, "\"" + r, t);
    Regroup("\"", Escaped(text, "\"" + r), t);
  }

  lemma {:induction false} PrintedSplit(v: Json, r: string, t: string)
    ensures Printed(v, r + t) == Printed(v, r) + t
    decreases v
  {
    match v
    case Null => Regroup("null", r, t);
    case Bool(truth) => Regroup(if truth then "true" else "false", r, t);
    case Number(numeral) => Regroup(numeral, r, t);
    case Text(text) => QuotedSplit(text, r, t);
    case List(items) =>
      Regroup("]", r, t);
      ItemsSplit(true, items, "]" + r, t);
      Regroup("[", PrintedItems(true, items, "]" + r), t);
    case Object(fields) =>
      var keys := SortedKeys(fields.Keys);
      Regroup("}", r, t);
      FieldsSplit(true, v, keys, "}" + r, t);
      Regroup("{", PrintedFields(true, v, keys, "}" + r), t);
  }

  lemma {:induction false} ItemsSplit(first: bool, items: seq<Json>, r: string, t: string)
    ensures PrintedItems(first, items, r + t) == PrintedItems(first, items, r) + t
    decreases items
  {
    if items != [] {
      var rest := PrintedItems(false, items[1..], r);
      ItemsSplit(false, items[1..], r, t);
      PrintedSplit(items[0], rest, t);
      Regroup(Separator(first), Printed(items[0], rest), t);
    }
  }

  lemma {:induction false} FieldsSplit(first: bool, v: Json, keys: seq<string>, r: string, t: string)
    requires v.Object? && Keys(keys) <= v.fields.Keys
    ensures PrintedFields(first, v, keys, r + t) == PrintedFields(first, v, keys, r) + t
    decreases v, |keys|
  {
    if keys != [] {
      TailIncluded(keys);
      assert keys[0] in Keys(keys);
      var value := v.fields[keys[0]];
      var rest := PrintedFields(false, v, keys[1..], r);
      FieldsSplit(false, v, keys[1..], r, t);
      PrintedSplit(value, rest, t);
      Regroup(":", Printed(value, rest), t);
      QuotedSplit(keys[0], ":" + Printed(value, rest), t);
      Regroup(Separator(first), Quoted(keys[0], ":" + Printed(value, rest)), t);
    }
  }

  method MarshalString(text: string) returns (bytes: string)
    ensures bytes == Quoted(text, "")
  {
    bytes := "\"";
    assert text[0..] == text && "\"" + "" == "\"";
    var i := 0;
    while i < |text|
      invariant 0 <= i <= |text|
      invariant bytes + Escaped(text[i..], "\"") == Quoted(text, "")
    {
      assert text[i..][1..] == text[i + 1..];
      Regroup(bytes, Escape(text[i]), Escaped(text[i + 1..], "\""));
      bytes := bytes + Escape(text[i]);
      i := i + 1;
    }
    bytes := bytes + "\"";
  }

  method Marshal(v: Json) returns (bytes: string)
    ensures bytes == Canonical(v)
    decreases v, 1
  {
    match v
    case Null => bytes := "null";
    case Bool(truth) => bytes := if truth then "true" else "false";
    case Number(numeral) => bytes := numeral;
    case Text(text) => bytes := MarshalString(text);
    case List(items) => bytes := MarshalSlice(v);
    case Object(fields) => bytes := MarshalMap(v);
  }

  /** `items` are left to print, behind `buf`. */
  ghost predicate ItemsLeft(v: Json, buf: string, first: bool, items: seq<Json>) {
    buf + PrintedItems(first, items, "]") == Canonical(v)
  }

  lemma ItemsBegin(v: Json)
    requires v.List?
    ensures ItemsLeft(v, "[", true, v.items)
  {
    assert "]" + "" == "]";
  }

  lemma ItemNext(v: Json, buf: string, first: bool, items: seq<Json>)
    requires ItemsLeft(v, buf, first, items) && items != []
    ensures ItemsLeft(v, buf + Separator(first) + Canonical(items[0]), false, items[1..])
  {
    var rest := PrintedItems(false, items[1..], "]");
    PrintedSplit(items[0], "", rest);
    assert "" + rest == rest;
    Regroup(buf, Separator(first), Canonical(items[0]) + rest);
    Regroup(buf + Separator(first), Canonical(items[0]), rest);
  }

  lemma ItemsPrinted(v: Json, buf: string, first: bool)
    requires ItemsLeft(v, buf, first, [])
    ensures buf + "]" == Canonical(v)
  {
  }

  method MarshalSlice(v: Json) returns (buf: string)
    requires v.List?
    ensures buf == Canonical(v)
    decreases v, 0
  {
    buf := "[";
    ItemsBegin(v);
    assert v.items[0..] == v.items;
    var i := 0;
    while i < |v.items|
      invariant 0 <= i <= |v.items| && ItemsLeft(v, buf, i == 0, v.items[i..])
    {
      ItemNext(v, buf, i == 0, v.items[i..]);
      assert v.items[i..][1..] == v.items[i + 1..];
      ghost var before := buf;
      if i > 0 {
        buf := buf + ",";
      }
      assert buf == before + Separator(i == 0);
      var item := Marshal(v.items[i]);
      buf := buf + item;
      i := i + 1;
    }
    ItemsPrinted(v, buf, i == 0);
    buf := buf + "]";
  }

  /** Puts distinct keys in ascending order. */
  method SortStrings(keys: seq<string>) returns (sorted: seq<string>)
    requires forall i, j | 0 <= i < j < |keys| :: keys[i] != keys[j]
    ensures Ascending(sorted) && Keys(sorted) == Keys(keys)
  {
    sorted := [];
    var i := 0;
    while i < |keys|
      invariant 0 <= i <= |keys|
      invariant Ascending(sorted) && Keys(sorted) == Keys(keys[..i])
    {
      assert keys[i] !in Keys(keys[..i]);
      InsertAscends(keys[i], sorted);
      SnocKeys(keys[..i], keys[i]);
      assert keys[..i] + [keys[i]] == keys[..i + 1];
      sorted := Insert(keys[i], sorted);
      i := i + 1;
    }
    assert keys[..|keys|] == keys;
  }

  lemma SnocKeys(keys: seq<string>, key: string)
    ensures Keys(keys + [key]) == Keys(keys) + {key}
  {
    var r := keys + [key];
    assert r[|keys|] == key;
    assert forall i | 0 <= i < |keys| :: r[i] == keys[i];
  }

  /** `for k := range m` followed by `sort.Strings`: the walk may offer the keys
      in any order, and nothing of that order is left. */
  method CollectKeys(fields: map<string, Json>) returns (keys: seq<string>)
    ensures keys == SortedKeys(fields.Keys)
  {
    var unseen := fields.Keys;
    var walked: seq<string> := [];
    while unseen != {}
      invariant Keys(walked) == fields.Keys - unseen && unseen <= fields.Keys
      invariant forall i, j | 0 <= i < j < |walked| :: walked[i] != walked[j]
      decreases unseen
    {
      var key :| key in unseen;
      SnocKeys(walked, key);
      assert forall i | 0 <= i < |walked| :: walked[i] in Keys(walked);
      walked := walked + [key];
      unseen := unseen - {key};
    }
    keys := SortStrings(walked);
    AscendingUnique(keys, SortedKeys(fields.Keys));
  }

  /** One printed field, with what comes before and after it. */
  lemma Flatten(buf: string, sep: string, name: string, value: string, after: string)
    ensures buf + (sep + (name + (":" + (value + after)))) == buf + sep + name + ":" + value + after
  {
  }

  lemma FieldStep(first: bool, v: Json, keys: seq<string>, rest: string)
    requires v.Object? && keys != [] && Keys(keys) <= v.fields.Keys
    ensures keys[0] in v.fields && Keys(keys[1..]) <= v.fields.Keys
    ensures PrintedFields(first, v, keys, rest)
         == Separator(first) + (Quoted(keys[0], "") + (":" + (Canonical(v.fields[keys[0]])
            + PrintedFields(false, v, keys[1..], rest))))
  {
    TailIncluded(keys);
    assert keys[0] in Keys(keys);
    var value := v.fields[keys[0]];
    var after := PrintedFields(false, v, keys[1..], rest);
    PrintedSplit(value, "", after);
    assert "" + after == after;
    QuotedSplit(keys[0], "", ":" + Printed(value, after));
    assert "" + (":" + Printed(value, after)) == ":" + Printed(value, after);
  }

  method MarshalField(buf: string, first: bool, key: string, value: Json) returns (buf': string)
    ensures buf' == buf + Separator(first) + Quoted(key, "") + ":" + Canonical(value)
    decreases value, 2
  {
    buf' := buf;
    if !first {
      buf' := buf' + ",";
    }
    var name := MarshalString(key);
    buf' := buf' + name + ":";
    var text := Marshal(value);
    buf' := buf' + text;
  }

  /** `keys` are left to print, behind `buf`. */
  ghost predicate FieldsLeft(v: Json, buf: string, first: bool, keys: seq<string>) {
    v.Object? && Keys(keys) <= v.fields.Keys && buf + PrintedFields(first, v, keys, "}") == Canonical(v)
  }

  lemma FieldsBegin(v: Json)
    requires v.Object?
    ensures FieldsLeft(v, "{", true, SortedKeys(v.fields.Keys))
  {
    assert "}" + "" == "}";
  }

  lemma FieldNext(v: Json, buf: string, first: bool, keys: seq<string>)
    requires FieldsLeft(v, buf, first, keys) && keys != []
    ensures keys[0] in v.fields
    ensures FieldsLeft(v, buf + Separator(first) + Quoted(keys[0], "") + ":" + Canonical(v.fields[keys[0]]), false, keys[1..])
  {
    FieldStep(first, v, keys, "}");
    Flatten(buf, Separator(first), Quoted(keys[0], ""), Canonical(v.fields[keys[0]]), PrintedFields(false, v, keys[1..], "}"));
  }

  lemma FieldsPrinted(v: Json, buf: string, first: bool)
    requires FieldsLeft(v, buf, first, [])
    ensures buf + "}" == Canonical(v)
  {
  }

  method MarshalMap(v: Json) returns (buf: string)
    requires v.Object?
    ensures buf == Canonical(v)
    decreases v, 0
  {
    var keys := CollectKeys(v.fields);
    buf := "{";
    FieldsBegin(v);
    assert keys[0..] == keys;
    var i := 0;
    while i < |keys|
      invariant 0 <= i <= |keys| && FieldsLeft(v, buf, i == 0, keys[i..])
    {
      FieldNext(v, buf, i == 0, keys[i..]);
      assert keys[i..][1..] == keys[i + 1..];
      buf := MarshalField(buf, i == 0, keys[i], v.fields[keys[i]]);
      i := i + 1;
    }
    FieldsPrinted(v, buf, i == 0);
    buf := buf + "}";
  }
}
