/** Citations in a model's output, and the marks of rendered steps that they quote. */
module Citations {
  import opened Decimals
  import opened Records
  import opened Render

  /** The length of the run of digits at the start. */
  function DigitsLength(text: string): (n: nat)
    ensures n <= |text|
  {
    if text == "" || !Digit(text[0]) then 0 else 1 + DigitsLength(text[1..])
  }

  lemma {:induction false} DigitsAreDigits(text: string)
    ensures forall i | 0 <= i < DigitsLength(text) :: Digit(text[i])
  {
    if text != "" && Digit(text[0]) {
      DigitsAreDigits(text[1..]);
    }
  }

  /** The numbers that stand behind a section sign, from left to right. */
  function CitedIn(text: string): seq<int>
    decreases |text|
  {
    if |text| < 2 then []
    else if text[..2] == SECTION && DigitsLength(text[2..]) > 0 then
      var n := DigitsLength(text[2..]);
      DigitsAreDigits(text[2..]);
      [ValueOf(text[2..][..n])] + CitedIn(text[2 + n..])
    else CitedIn(text[1..])
  }

  lemma {:induction false} DigitsEnd(digits: string, rest: string)
    requires forall i | 0 <= i < |digits| :: Digit(digits[i])
    requires rest == "" || !Digit(rest[0])
    ensures DigitsLength(digits + rest) == |digits|
  {
    if digits != "" {
      DigitsEnd(digits[1..], rest);
      assert (digits + rest)[1..] == digits[1..] + rest;
    } else {
      assert digits + rest == rest;
    }
  }

  /** Without the second byte of a section sign there is no citation. */
  lemma {:induction false} NoSection(text: string)
    requires forall i | 0 <= i < |text| :: text[i] != 0xA7 as char
    ensures CitedIn(text) == []
    decreases |text|
  {
    if |text| >= 2 {
      assert text[..2][1] == text[1] && SECTION[1] == 0xA7 as char;
      NoSection(text[1..]);
    }
  }

  /** A number behind a section sign is read whole. */
  lemma CitedDigits(digits: string, rest: string)
    requires digits != "" && forall i | 0 <= i < |digits| :: Digit(digits[i])
    requires rest == "" || !Digit(rest[0])
    ensures CitedIn(SECTION + (digits + rest)) == [ValueOf(digits)] + CitedIn(rest)
  {
    var text, behind, n := SECTION + (digits + rest), digits + rest, |digits|;
    DigitsEnd(digits, rest);
    assert |SECTION| == 2;
    assert text[..2] == SECTION && text[2..] == behind;
    assert behind[..n] == digits && text[2 + n..] == rest;
  }

  lemma {:induction false} SkipPrefix(prefix: string, text: string)
    requires forall i | 0 <= i < |prefix| :: prefix[i] != 0xC2 as char
    ensures CitedIn(prefix + text) == CitedIn(text)
  {
    if prefix == "" {
      assert prefix + text == text;
    } else {
      SkipPrefix(prefix[1..], text);
      Skip(prefix[0], prefix[1..] + text);
      assert prefix + text == [prefix[0]] + (prefix[1..] + text);
    }
  }

  lemma Skip(c: char, text: string)
    requires c != 0xC2 as char
    ensures CitedIn([c] + text) == CitedIn(text)
  {
    assert ([c] + text)[1..] == text;
    assert |text| >= 1 ==> ([c] + text)[..2][0] == c && SECTION[0] == 0xC2 as char;
  }

  /** A mark behind its number. */
  function Behind(kind: StepType, level: int): string {
    DOT + KindName(kind) + DOT + ['L'] + Number(level) + MARKER_CLOSE
  }

  lemma BehindHasNoSection(kind: StepType, level: nat)
    requires !kind.Other?
    ensures forall i | 0 <= i < |Behind(kind, level)| :: Behind(kind, level)[i] != 0xA7 as char
    ensures Behind(kind, level) != "" && !Digit(Behind(kind, level)[0])
  {
    DecimalDigits(level);
    NameHasNoSection(kind);
    var name, number := KindName(kind), Number(level);
    forall i | 0 <= i < |number| ensures number[i] != 0xA7 as char {
      assert Digit(number[i]);
    }
    PlainSum(DOT, name);
    PlainSum(DOT + name, DOT);
    PlainSum(DOT + name + DOT, ['L']);
    PlainSum(DOT + name + DOT + ['L'], number);
    PlainSum(DOT + name + DOT + ['L'] + number, MARKER_CLOSE);
    assert Behind(kind, level)[0] == DOT[0];
  }

  predicate Plain(text: string) {
    forall i | 0 <= i < |text| :: text[i] != 0xA7 as char
  }

  lemma PlainSum(a: string, b: string)
    requires Plain(a) && Plain(b)
    ensures Plain(a + b)
  {
  }

  lemma NameHasNoSection(kind: StepType)
    requires !kind.Other?
    ensures Plain(KindName(kind))
  {
  }

  /** Quoting the mark of a rendered step cites that step, and nothing else. */
  lemma MarkCitesStep(id: nat, kind: StepType, level: nat)
    requires !kind.Other?
    ensures CitedIn(Marker(id, kind, level)) == [id]
  {
    var rest := Behind(kind, level);
    BehindHasNoSection(kind, level);
    NoSection(rest);
    DecimalDigits(id);
    ValueOfDecimal(id);
    CitedDigits(Decimal(id), rest);
    SkipPrefix(MARKER_OPEN, SECTION + (Decimal(id) + rest));
    Regrouped(MARKER_OPEN, SECTION, Decimal(id), DOT, KindName(kind), ['L'], Number(level), MARKER_CLOSE);
  }

  lemma Regrouped(open: string, section: string, id: string, dot: string, name: string, l: string, level: string,
                  close: string)
    ensures open + section + id + dot + name + dot + l + level + close ==
            open + (section + (id + (dot + name + dot + l + level + close)))
  {
    var a, b := section + (id + (dot + name + dot + l + level + close)), dot + name + dot + l + level;
    assert open + section + id + dot + name + dot + l + level == open + (section + (id + b));
  }
}
