/** The numbers of section 6 of RFC 8259, read from left to right. */
module Numerals {
  import opened Decimals
  import opened CanonicalJson

  /** Where a reader of a number is; nowhere if it cannot be one. */
  datatype Place = Begin | Minus | Zero | Whole | Point | Fraction | Mark | Sign | Exponent | Nowhere

  function After(place: Place, c: char): Place {
    match place
    case Begin => if c == '-' then Minus else if c == '0' then Zero else if Digit(c) then Whole else Nowhere
    case Minus => if c == '0' then Zero else if Digit(c) then Whole else Nowhere
    case Zero => if c == '.' then Point else if c == 'e' || c == 'E' then Mark else Nowhere
    case Whole => if Digit(c) then Whole else if c == '.' then Point else if c == 'e' || c == 'E' then Mark else Nowhere
    case Point => if Digit(c) then Fraction else Nowhere
    case Fraction => if Digit(c) then Fraction else if c == 'e' || c == 'E' then Mark else Nowhere
    case Mark => if c == '+' || c == '-' then Sign else if Digit(c) then Exponent else Nowhere
    case Sign => if Digit(c) then Exponent else Nowhere
    case Exponent => if Digit(c) then Exponent else Nowhere
    case Nowhere => Nowhere
  }

  function Reads(place: Place, text: string): Place {
    if text == "" then place else After(Reads(place, text[..|text| - 1]), text[|text| - 1])
  }

  predicate Complete(place: Place) {
    place == Zero || place == Whole || place == Fraction || place == Exponent
  }

  predicate IsNumber(text: string) {
    Complete(Reads(Begin, text))
  }

  lemma {:induction false} ReadsShape(text: string)
    requires Reads(Begin, text) != Nowhere && text != ""
    ensures (text[0] == '-' || '0' <= text[0] <= '9') && forall i | 0 <= i < |text| :: NumeralChar(text[i])
  {
    var before := text[..|text| - 1];
    if before == "" {
      assert Reads(Begin, before) == Begin;
    } else {
      ReadsShape(before);
      assert before[0] == text[0];
    }
  }

  lemma NumberIsNumeral(text: string)
    requires IsNumber(text)
    ensures IsNumeral(text)
  {
    ReadsShape(text);
  }

  lemma {:induction false} ReadsOn(place: Place, a: string, b: string)
    ensures Reads(place, a + b) == Reads(Reads(place, a), b)
  {
    if b == "" {
      assert a + b == a;
    } else {
      ReadsOn(place, a, b[..|b| - 1]);
      assert (a + b)[..|a + b| - 1] == a + b[..|b| - 1];
    }
  }

  lemma {:induction false} NowhereOn(text: string)
    ensures Reads(Nowhere, text) == Nowhere
  {
    if text != "" {
      NowhereOn(text[..|text| - 1]);
    }
  }

  lemma ReadsOne(place: Place, c: char)
    ensures Reads(place, [c]) == After(place, c)
  {
    assert [c][..0] == "";
  }

  /** What can be continued to a number by another digit. */
  predicate Opens(text: string) {
    IsNumber(text + ['1'])
  }

  lemma OneMoreDigit(text: string)
    requires After(Reads(Begin, text), '1') != Nowhere
    ensures Opens(text) && Reads(Begin, text + ['1']) == After(Reads(Begin, text), '1')
  {
    ReadsOn(Begin, text, ['1']);
    ReadsOne(Reads(Begin, text), '1');
  }

  /** Where a number goes on as a number begins, it could go on with any number of
      digits. */
  lemma OpensBy(text: string, rest: string)
    requires IsNumber(text + rest) && rest != "" && (rest[0] == '-' || Digit(rest[0]))
    ensures Opens(text) && Opens(text + ['1'])
  {
    var place := Reads(Begin, text);
    ReadsOn(Begin, text, rest);
    assert rest == [rest[0]] + rest[1..];
    FirstRead(place, rest[0], rest[1..]);
    OneMoreDigit(text);
    OneMoreDigit(text + ['1']);
  }

  lemma FirstRead(place: Place, c: char, more: string)
    requires Reads(place, [c] + more) != Nowhere
    ensures After(place, c) != Nowhere
  {
    ReadsOn(place, [c], more);
    ReadsOne(place, c);
    NowhereOn(more);
  }

  lemma OneIsNumber()
    ensures IsNumber(['1'])
  {
    ReadsOne(Begin, '1');
  }

  /** A text can be continued by a number to a number exactly if it can be by the
      digit 1. */
  lemma OpensIff(text: string)
    ensures (exists more :: IsNumber(more) && IsNumber(text + more)) <==> Opens(text)
  {
    if more :| IsNumber(more) && IsNumber(text + more) {
      ReadsShape(more);
      OpensBy(text, more);
    }
    OneIsNumber();
  }
}
