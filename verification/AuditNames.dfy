/** When the hashed text of an audit entry determines all fields that are hashed: what
    the names of the sources and actions must be like, exactly. */
module AuditNames {
  import opened Decimals
  import opened CanonicalJson
  import opened Numerals
  import opened AuditLog

  // -------------------------------------------------- names that run into values

  const WORDS: set<string> := {"null", "true", "false"}

  /** No character in it opens a string, a list or an object. */
  predicate Plain(text: string) {
    forall i | 0 <= i < |text| :: text[i] != '\"' && text[i] != '[' && text[i] != '{'
  }

  /** A value that is a number of the standard, if it is a number. */
  predicate Proper(v: Json) {
    v.Number? ==> IsNumber(v.numeral)
  }

  predicate WordOrNumber(text: string) {
    text in WORDS || IsNumber(text)
  }

  /** What is left over in front of two values is read as part of them: a word or a
      number, or the beginning of a number, or the former and then the latter. */
  predicate Extends(more: string) {
    more != "" && exists k | 0 <= k <= |more| ::
      (k == 0 || WordOrNumber(more[..k])) && (k == |more| || Opens(more[k..]))
  }

  /** Two values print as the text followed by two values. */
  ghost predicate ReadWith(more: string, a: Json, b: Json, c: Json, d: Json) {
    && Proper(a) && Proper(b) && Proper(c) && Proper(d)
    && Canonical(a) + Canonical(b) == more + (Canonical(c) + Canonical(d))
  }

  ghost predicate RunsInto(more: string) {
    exists a, b, c, d :: ReadWith(more, a, b, c, d)
  }

  lemma WordText(v: Json)
    requires v.Null? || v.Bool?
    ensures Canonical(v) in WORDS
  {
    assert Canonical(v) == if v.Null? then "null" else if v.truth then "true" else "false";
  }

  lemma NumberText(v: Json)
    requires v.Number?
    ensures Canonical(v) == v.numeral
  {
  }

  /** What a value can begin with. */
  predicate Starts(c: char) {
    c == 'n' || c == 't' || c == 'f' || c == '\"' || c == '[' || c == '{' || c == '-' || Digit(c)
  }

  lemma FirstOfValue(v: Json)
    ensures Canonical(v) != "" && Starts(Canonical(v)[0])
    ensures v.Number? <==> Canonical(v)[0] == '-' || Digit(Canonical(v)[0])
    ensures v.Text? || v.List? || v.Object? <==>
            Canonical(v)[0] == '\"' || Canonical(v)[0] == '[' || Canonical(v)[0] == '{'
  {
    KindOfPrinted(v, "");
  }

  /** No value begins inside a word. */
  lemma InsideWord(word: string, i: nat)
    requires word in WORDS && 0 < i < |word|
    ensures !Starts(word[i])
  {
    if word == "null" {
      assert word[1] == 'u' && word[2] == 'l' && word[3] == 'l';
    } else if word == "true" {
      assert word[1] == 'r' && word[2] == 'u' && word[3] == 'e';
    } else {
      assert word[1] == 'a' && word[2] == 'l' && word[3] == 's' && word[4] == 'e';
    }
  }

  lemma CutAt(x: string, y: string, more: string, rest: string)
    requires x + y == more + rest && |x| <= |more|
    ensures x == more[..|x|] && y == more[|x|..] + rest
  {
    assert x == (x + y)[..|x|] == (more + rest)[..|x|];
    assert y == (x + y)[|x|..] == (more + rest)[|x|..];
  }

  lemma CutInside(x: string, y: string, more: string, rest: string)
    requires x + y == more + rest && |more| < |x| && rest != ""
    ensures x == more + x[|more|..] && x[|more|] == rest[0]
  {
    assert more == (more + rest)[..|more|] == (x + y)[..|more|] == x[..|more|];
    assert x[|more|] == (x + y)[|more|] == (more + rest)[|more|];
  }

  /** A plain text in front of two values cannot end inside the one value that all is,
      but for a number. */
  lemma OneValue(b: Json, more: string, c: Json, d: Json)
    requires Plain(more) && more != "" && Proper(b)
    requires Canonical(b) == more + (Canonical(c) + Canonical(d))
    ensures Opens(more)
  {
    var text, rest := Canonical(b), Canonical(c) + Canonical(d);
    FirstOfValue(b);
    FirstOfValue(c);
    assert text[0] == more[0] && text[|more|] == rest[0] == Canonical(c)[0];
    if b.Number? {
      NumberText(b);
      NumeralAt(text, |more|);
      OpensBy(more, rest);
    } else {
      WordText(b);
      InsideWord(text, |more|);
    }
  }

  /** Where a numeral goes on with the beginning of a value, that is of a number. */
  lemma NumeralAt(text: string, i: nat)
    requires IsNumeral(text) && i < |text| && Starts(text[i])
    ensures text[i] == '-' || Digit(text[i])
  {
    assert NumeralChar(text[i]);
  }

  lemma RunsIntoExtends(more: string, a: Json, b: Json, c: Json, d: Json)
    requires Plain(more) && more != "" && ReadWith(more, a, b, c, d)
    ensures Extends(more)
  {
    var x, y, rest := Canonical(a), Canonical(b), Canonical(c) + Canonical(d);
    FirstOfValue(a);
    FirstOfValue(c);
    assert x[0] == (x + y)[0] == (more + rest)[0] == more[0];
    if |x| <= |more| {
      CutAt(x, y, more, rest);
      LeadingValue(a, more);
      if |x| < |more| {
        OneValue(b, more[|x|..], c, d);
      }
      assert (|x| == 0 || WordOrNumber(more[..|x|])) && (|x| == |more| || Opens(more[|x|..]));
    } else {
      CutInside(x, y, more, rest);
      EndsInside(a, more);
      assert more[0..] == more;
    }
  }

  lemma LeadingValue(a: Json, more: string)
    requires Plain(more) && Proper(a) && |Canonical(a)| <= |more| && Canonical(a) == more[..|Canonical(a)|]
    ensures WordOrNumber(Canonical(a))
  {
    FirstOfValue(a);
    assert Canonical(a)[0] == more[0];
    if a.Number? {
      NumberText(a);
    } else {
      WordText(a);
    }
  }

  lemma EndsInside(a: Json, more: string)
    requires Plain(more) && more != "" && Proper(a) && |more| < |Canonical(a)|
    requires Canonical(a) == more + Canonical(a)[|more|..] && Starts(Canonical(a)[|more|])
    ensures Opens(more)
  {
    var x := Canonical(a);
    FirstOfValue(a);
    assert x[0] == more[0];
    if a.Number? {
      NumberText(a);
      NumeralAt(x, |more|);
      OpensBy(more, x[|more|..]);
    } else {
      WordText(a);
      InsideWord(x, |more|);
    }
  }

  function ValueOfWord(text: string): Json
    requires text in WORDS
  {
    if text == "null" then Null else Bool(text == "true")
  }

  lemma ReadBack(text: string) returns (v: Json)
    requires WordOrNumber(text)
    ensures Proper(v) && Canonical(v) == text
  {
    if text in WORDS {
      v := ValueOfWord(text);
    } else {
      v := NumberOf(text);
    }
  }

  lemma NumberOf(text: string) returns (v: Json)
    requires IsNumber(text)
    ensures v.Number? && v.numeral == text && Proper(v) && Canonical(v) == text
  {
    NumberIsNumeral(text);
    v := Number(text);
    NumberText(v);
  }

  lemma OneAgain(c: char)
    ensures [c] + [c] == [c, c]
  {
  }

  /** In front of 1 and 1 a word or number is the first value, and 11 the second. */
  lemma WholeRunsInto(more: string)
    requires WordOrNumber(more)
    ensures RunsInto(more)
  {
    OneIsNumber();
    OneMoreDigit(['1']);
    OneAgain('1');
    var a := ReadBack(more);
    var one := NumberOf(['1']);
    var b := NumberOf(['1', '1']);
    assert ReadWith(more, a, b, one, one);
  }

  /** In front of 1 and null the beginning of a number is one with the 1. */
  lemma BeginningRunsInto(more: string)
    requires Opens(more)
    ensures RunsInto(more)
  {
    OneIsNumber();
    var a := NumberOf(more + ['1']);
    var one := NumberOf(['1']);
    Regroup(more, ['1'], Canonical(Null));
    assert ReadWith(more, a, Null, one, Null);
  }

  /** In front of 1 and 1 a word or number is the first value, and what is behind it is
      one number with the two. */
  lemma BothRunInto(word: string, rest: string)
    requires WordOrNumber(word) && Opens(rest)
    ensures RunsInto(word + rest)
  {
    OneIsNumber();
    OpensTwice(rest);
    OneAgain('1');
    var a := ReadBack(word);
    var one := NumberOf(['1']);
    var b := NumberOf(rest + ['1', '1']);
    Regroup(word, rest, ['1', '1']);
    assert ReadWith(word + rest, a, b, one, one);
  }

  lemma ExtendsRunsInto(more: string, k: nat)
    requires more != "" && k <= |more|
    requires (k == 0 || WordOrNumber(more[..k])) && (k == |more| || Opens(more[k..]))
    ensures RunsInto(more)
  {
    assert more[..k] + more[k..] == more;
    if k == |more| {
      assert more[..k] == more;
      WholeRunsInto(more);
    } else if k == 0 {
      assert more[k..] == more;
      BeginningRunsInto(more);
    } else {
      BothRunInto(more[..k], more[k..]);
    }
  }

  lemma OpensTwice(text: string)
    requires Opens(text)
    ensures IsNumber(text + ['1', '1'])
  {
    OpensBy(text, ['1']);
    assert text + ['1'] + ['1'] == text + ['1', '1'];
  }

  /** A plain text is read as part of two values that follow it, by some two values,
      exactly if it is such a beginning. */
  lemma RunsIntoIff(more: string)
    requires Plain(more) && more != ""
    ensures RunsInto(more) <==> Extends(more)
  {
    if Extends(more) {
      var k :| 0 <= k <= |more| && (k == 0 || WordOrNumber(more[..k])) && (k == |more| || Opens(more[k..]));
      ExtendsRunsInto(more, k);
    } else if RunsInto(more) {
      var a, b, c, d :| ReadWith(more, a, b, c, d);
      RunsIntoExtends(more, a, b, c, d);
    }
  }

  // ---------------------------------------------------------- all fields at once

  /** A source and an action. */
  datatype Name = Name(source: string, action: string)

  function Label(name: Name): string {
    name.source + name.action
  }

  function NameOf(e: Entry): Name {
    Name(e.source, e.action)
  }

  /** A timestamp in UTC ends in the only `Z` that it has. */
  predicate Utc(stamp: string) {
    stamp != "" && stamp[|stamp| - 1] == 'Z' && forall i | 0 <= i < |stamp| - 1 :: stamp[i] != 'Z'
  }

  /** An entry as one is hashed: linked or at the root, stamped in UTC, with numbers of
      the standard. */
  predicate Hashable(e: Entry) {
    && (e.prevHash == "" || IsDigest(e.prevHash)) && Utc(e.timestamp)
    && Proper(e.input) && Proper(e.output)
  }

  /** The entries agree in what is hashed, or in all of it but four numbers that run
      together. */
  predicate Agree(e: Entry, f: Entry) {
    && e.prevHash == f.prevHash && e.timestamp == f.timestamp && NameOf(e) == NameOf(f)
    && ((e.input == f.input && e.output == f.output) || RunTogether(e.input, e.output, f.input, f.output))
  }

  /** Under these names the hashed text determines the fields. */
  ghost predicate Determined(names: iset<Name>) {
    forall e, f | Hashable(e) && Hashable(f) && NameOf(e) in names && NameOf(f) in names && Preimage(e) == Preimage(f) ::
      Agree(e, f)
  }

  /** Two names print alike. */
  ghost predicate SomeAlike(names: iset<Name>) {
    exists m, n :: m in names && n in names && m != n && Label(m) == Label(n)
  }

  /** One name goes on where the other ends, with what can be read as part of values. */
  ghost predicate GoesOn(m: Name, n: Name) {
    |Label(m)| < |Label(n)| && Label(n)[..|Label(m)|] == Label(m) && RunsInto(Label(n)[|Label(m)|..])
  }

  ghost predicate SomeGoesOn(names: iset<Name>) {
    exists m, n :: m in names && n in names && GoesOn(m, n)
  }

  predicate PlainName(name: Name) {
    Plain(Label(name))
  }

  /** The same for plain names, as it can be checked. */
  predicate Continues(m: Name, n: Name) {
    |Label(m)| < |Label(n)| && Label(n)[..|Label(m)|] == Label(m) && Extends(Label(n)[|Label(m)|..])
  }

  ghost predicate SomeContinues(names: iset<Name>) {
    exists m, n :: m in names && n in names && Continues(m, n)
  }

  ghost function Values(e: Entry): string {
    Canonical(e.input) + Canonical(e.output)
  }

  lemma StampNotShorter(a: string, b: string, r: string, t: string)
    requires Utc(a) && Utc(b) && a + r == b + t
    ensures |a| >= |b|
  {
    assert (b + t)[|a| - 1] == (a + r)[|a| - 1] == 'Z';
    assert |a| <= |b| ==> (b + t)[|a| - 1] == b[|a| - 1];
  }

  lemma StampAndRest(a: string, b: string, r: string, t: string)
    requires Utc(a) && Utc(b) && a + r == b + t
    ensures a == b && r == t
  {
    StampNotShorter(a, b, r, t);
    StampNotShorter(b, a, t, r);
    assert a == (a + r)[..|a|] == (b + t)[..|b|] == b;
    DropPrefix(a, r, t);
  }

  /** Link and timestamp can be read off, and what is left is the names and values. */
  lemma LinkAndStamp(e: Entry, f: Entry)
    requires Hashable(e) && Hashable(f) && Preimage(e) == Preimage(f)
    ensures e.prevHash == f.prevHash && e.timestamp == f.timestamp
    ensures Label(NameOf(e)) + Values(e) == Label(NameOf(f)) + Values(f)
  {
    PreimageGivesLink(e, f);
    var r, t := e.source + (e.action + Values(e)), f.source + (f.action + Values(f));
    DropPrefix(e.prevHash, e.timestamp + r, f.timestamp + t);
    StampAndRest(e.timestamp, f.timestamp, r, t);
    Regroup(e.source, e.action, Values(e));
    Regroup(f.source, f.action, Values(f));
  }

  lemma ShorterGoesOn(e: Entry, f: Entry)
    requires Hashable(e) && Hashable(f) && |Label(NameOf(e))| < |Label(NameOf(f))|
    requires Label(NameOf(e)) + Values(e) == Label(NameOf(f)) + Values(f)
    ensures GoesOn(NameOf(e), NameOf(f))
  {
    var a, b := Label(NameOf(e)), Label(NameOf(f));
    CutAt(a, Values(e), b, Values(f));
    assert ReadWith(b[|a|..], e.input, e.output, f.input, f.output);
  }

  lemma SameNameAgree(e: Entry, f: Entry)
    requires e.prevHash == f.prevHash && e.timestamp == f.timestamp && NameOf(e) == NameOf(f)
    requires Preimage(e) == Preimage(f)
    ensures Agree(e, f)
  {
    var g := f.(input := e.input, output := e.output);
    assert Preimage(g) == Preimage(e);
    PreimageDeterminesValues(f, e.input, e.output);
  }

  lemma EntriesAgree(e: Entry, f: Entry, names: iset<Name>)
    requires Hashable(e) && Hashable(f) && NameOf(e) in names && NameOf(f) in names && Preimage(e) == Preimage(f)
    requires !SomeAlike(names) && !SomeGoesOn(names)
    ensures Agree(e, f)
  {
    LinkAndStamp(e, f);
    var a, b := Label(NameOf(e)), Label(NameOf(f));
    if |a| < |b| {
      ShorterGoesOn(e, f);
    } else if |b| < |a| {
      ShorterGoesOn(f, e);
    } else {
      CutAt(a, Values(e), b, Values(f));
      assert b[..|a|] == b;
      SameNameAgree(e, f);
    }
  }

  /** A root entry with these names and values. */
  function Rooted(name: Name, input: Json, output: Json): Entry {
    Entry("", "", ZERO_TIME, name.source, name.action, input, output, "")
  }

  lemma RootedHashable(name: Name, input: Json, output: Json)
    requires Proper(input) && Proper(output)
    ensures Hashable(Rooted(name, input, output)) && NameOf(Rooted(name, input, output)) == name
  {
  }

  lemma RootedAlike(m: Name, a: Json, b: Json, n: Name, c: Json, d: Json)
    requires Label(m) + (Canonical(a) + Canonical(b)) == Label(n) + (Canonical(c) + Canonical(d))
    ensures Preimage(Rooted(m, a, b)) == Preimage(Rooted(n, c, d))
  {
    Regroup(m.source, m.action, Canonical(a) + Canonical(b));
    Regroup(n.source, n.action, Canonical(c) + Canonical(d));
  }

  /** Two different names that print alike have two entries with one text, */
  lemma AlikeNotDetermined(names: iset<Name>, m: Name, n: Name)
    requires m in names && n in names && m != n && Label(m) == Label(n)
    ensures !Determined(names)
  {
    var e, f := Rooted(m, Null, Null), Rooted(n, Null, Null);
    RootedHashable(m, Null, Null);
    RootedHashable(n, Null, Null);
    RootedAlike(m, Null, Null, n, Null, Null);
    assert !Agree(e, f);
  }

  /** What one name leaves over of another, with the two values behind each. */
  lemma LeftOver(m: Name, n: Name) returns (a: Json, b: Json, c: Json, d: Json)
    requires GoesOn(m, n)
    ensures Proper(a) && Proper(b) && Proper(c) && Proper(d)
    ensures Label(m) + (Canonical(a) + Canonical(b)) == Label(n) + (Canonical(c) + Canonical(d))
  {
    var more := Label(n)[|Label(m)|..];
    a, b, c, d :| ReadWith(more, a, b, c, d);
    assert Label(n) == Label(m) + more;
    Regroup(Label(m), more, Canonical(c) + Canonical(d));
  }

  /** and so have two of which one goes on where the other ends. */
  lemma GoesOnNotDetermined(names: iset<Name>, m: Name, n: Name)
    requires m in names && n in names && GoesOn(m, n)
    ensures !Determined(names)
  {
    var a, b, c, d := LeftOver(m, n);
    var e, f := Rooted(m, a, b), Rooted(n, c, d);
    RootedHashable(m, a, b);
    RootedHashable(n, c, d);
    RootedAlike(m, a, b, n, c, d);
    assert !Agree(e, f);
  }

  /** Main result: under any names the hashed text determines link, timestamp, source,
      action and values, but for four numbers that run together, exactly if no two
      names print alike and none goes on where another ends with what can be read as
      part of values. */
  lemma DeterminedIff(names: iset<Name>)
    ensures Determined(names) <==> !SomeAlike(names) && !SomeGoesOn(names)
  {
    if SomeAlike(names) {
      var m, n :| m in names && n in names && m != n && Label(m) == Label(n);
      AlikeNotDetermined(names, m, n);
    } else if SomeGoesOn(names) {
      var m, n :| m in names && n in names && GoesOn(m, n);
      GoesOnNotDetermined(names, m, n);
    } else {
      forall e, f | Hashable(e) && Hashable(f) && NameOf(e) in names && NameOf(f) in names && Preimage(e) == Preimage(f)
        ensures Agree(e, f)
      {
        EntriesAgree(e, f, names);
      }
    }
  }

  lemma ContinuesIff(m: Name, n: Name)
    requires PlainName(n)
    ensures GoesOn(m, n) <==> Continues(m, n)
  {
    var a, b := Label(m), Label(n);
    if |a| < |b| {
      var more := b[|a|..];
      assert forall i | 0 <= i < |more| :: more[i] == b[|a| + i];
      RunsIntoIff(more);
    }
  }

  /** Among names without quotes and opening brackets that is a word or number, the
      beginning of a number, or the one and then the other. */
  lemma PlainDeterminedIff(names: iset<Name>)
    requires forall n | n in names :: PlainName(n)
    ensures Determined(names) <==> !SomeAlike(names) && !SomeContinues(names)
  {
    DeterminedIff(names);
    forall m, n | m in names && n in names ensures GoesOn(m, n) <==> Continues(m, n) {
      ContinuesIff(m, n);
    }
  }

  lemma ClosedNeverGoesOn(m: Name, n: Name, close: char)
    requires Label(m) != "" && Label(m)[|Label(m)| - 1] == close
    requires forall i | 0 <= i < |Label(n)| - 1 :: Label(n)[i] != close
    ensures !GoesOn(m, n)
  {
    var k := |Label(m)|;
    assert k <= |Label(n)| && Label(n)[..k] == Label(m) ==> Label(n)[..k][k - 1] == close == Label(n)[k - 1];
  }

  /** It is enough that every name ends in the same character, which no name has
      before: as in names that end in a line feed. */
  lemma ClosedNamesDetermined(names: iset<Name>, close: char)
    requires forall n | n in names :: Label(n) != "" && Label(n)[|Label(n)| - 1] == close
    requires forall n, i | n in names && 0 <= i < |Label(n)| - 1 :: Label(n)[i] != close
    ensures Determined(names) <==> !SomeAlike(names)
  {
    forall m, n | m in names && n in names ensures !GoesOn(m, n) {
      ClosedNeverGoesOn(m, n, close);
    }
    DeterminedIff(names);
  }

  /** Without such care an action runs into the value behind it: `a1` with the input 2
      and `a` with the input 12 have one text, and the hash of it. */
  lemma ActionRunsIntoValue(H: Hash, e: Entry)
    ensures ComputeHash(H, e.(action := "a1", input := Number("2"))) == ComputeHash(H, e.(action := "a", input := Number("12")))
  {
    var rest := Canonical(e.output);
    assert Canonical(Number("2")) == "2" && Canonical(Number("12")) == "12";
    assert "a1" + ("2" + rest) == "a" + ("12" + rest);
  }
}
