/** Cutting a rendered block short, behind its mark and in front of a closing tag. */
module Truncation {
  import opened Render

  const CONSTITUTION_END: string := "</constitutional>"
  const FACTS_END: string := "[/facts]"
  const CUT: string := "...[compressed]"

  /** The index of the first closing bracket of a marker, or the length. */
  function CloseIndex(content: string): (n: nat)
    ensures n <= |content|
  {
    if content == "" then 0
    else if MARKER_CLOSE <= content then 0
    else 1 + CloseIndex(content[1..])
  }

  /** The bracket is three bytes long, but one is all that the code steps over; the
      other two are counted as body. */
  function MarkerEnd(content: string): (n: nat)
    ensures n <= |content|
  {
    var k := CloseIndex(content);
    if k == |content| then 0
    else if k + 1 < |content| && content[k + 1] == ' ' then k + 2
    else k + 1
  }

  function Lower(c: char): char {
    if 'A' <= c <= 'Z' then c - 'A' + 'a' else c
  }

  predicate EndsWith(body: string, suffix: string) {
    |body| >= |suffix| && forall i | 0 <= i < |suffix| :: Lower(body[|body| - |suffix| + i]) == suffix[i]
  }

  /** The first of the closing tags that the body ends with, or nothing. */
  function ClosingTag(body: string, tags: seq<string>): (suffix: string)
    ensures |suffix| <= |body|
  {
    if tags == [] then ""
    else if EndsWith(body, tags[0]) then tags[0]
    else ClosingTag(body, tags[1..])
  }

  /** The part of the content that a cut could shorten. */
  function Cuttable(content: string, tags: seq<string>): nat {
    var body := content[MarkerEnd(content)..];
    |body| - |ClosingTag(body, tags)|
  }

  function Truncated(content: string, keep: int, tags: seq<string>): string {
    var marker, body := content[..MarkerEnd(content)], content[MarkerEnd(content)..];
    var suffix := ClosingTag(body, tags);
    var rest := body[..|body| - |suffix|];
    if keep <= 0 || |rest| <= keep then marker + rest + suffix else marker + rest[..keep] + CUT + suffix
  }

  const TAGS: seq<string> := [CONSTITUTION_END, FACTS_END]

  lemma TagsAre()
    ensures TAGS == ["</constitutional>", "[/facts]"] && CUT == "...[compressed]"
  {
  }

  /** A body ends with a tag if its last bytes are those of the tag, in capitals or not. */
  predicate EndsInTag(body: string, tag: string) {
    |body| >= |tag| &&
    forall i | 0 <= i < |tag| :: SameLetter(body[|body| - |tag| + i], tag[i])
  }

  predicate SameLetter(c: char, d: char) {
    d as int == c as int + if 'A' <= c <= 'Z' then 32 else 0
  }

  lemma EndsWithIff(body: string, tag: string)
    ensures EndsWith(body, tag) <==> EndsInTag(body, tag)
  {
    forall c, d ensures Lower(c) == d <==> SameLetter(c, d) {
    }
  }

  /** The closing tag of a body is the first of the list that it ends with, and empty if
      it ends with none. */
  lemma {:induction false} ClosingTagIs(body: string, tags: seq<string>, k: nat)
    requires k <= |tags| && forall j | 0 <= j < k :: !EndsInTag(body, tags[j])
    requires k < |tags| ==> EndsInTag(body, tags[k])
    ensures ClosingTag(body, tags) == if k < |tags| then tags[k] else ""
  {
    if tags != [] {
      EndsWithIff(body, tags[0]);
      if k > 0 {
        ClosingTagIs(body, tags[1..], k - 1);
      }
    }
  }

  /** The length changes by the difference between what is cut off and the note
      put in its place, so the result is longer exactly when less than the note is
      cut off. */
  lemma TruncatedLength(content: string, keep: int, tags: seq<string>)
    ensures var cuts := keep > 0 && Cuttable(content, tags) > keep;
            && |Truncated(content, keep, tags)| ==
               |content| + (if cuts then keep + |CUT| - Cuttable(content, tags) else 0)
            && (|Truncated(content, keep, tags)| > |content| <==> cuts && Cuttable(content, tags) - keep < |CUT|)
  {
  }

  /** What is before the cut is kept byte for byte. */
  lemma TruncatedPrefix(content: string, keep: nat, tags: seq<string>, n: nat)
    requires var cuttable := Cuttable(content, tags);
             n <= MarkerEnd(content) + (if keep > 0 && cuttable > keep then keep else cuttable)
    ensures n <= |content| && content[..n] <= Truncated(content, keep, tags)
  {
    var body := content[MarkerEnd(content)..];
    assert content == content[..MarkerEnd(content)] + body;
  }

  /** A closing tag stays at the end. */
  lemma TruncatedSuffix(content: string, keep: int, tags: seq<string>)
    ensures var tag := ClosingTag(content[MarkerEnd(content)..], tags);
            var result := Truncated(content, keep, tags);
            |tag| <= |result| && result[|result| - |tag|..] == tag
  {
  }

  lemma {:induction false} BracketBytes(content: string)
    ensures var k := CloseIndex(content);
            k < |content| ==> k + 3 <= |content| && content[k + 1] == 0x9F as char && content[k + 2] == 0xA9 as char
  {
    if content != "" && !(MARKER_CLOSE <= content) {
      BracketBytes(content[1..]);
    }
  }

  /** Closing tags are of two bytes or more, all of them ASCII. */
  predicate AsciiTags(tags: seq<string>) {
    forall t | t in tags :: |t| >= 2 && forall i | 0 <= i < |t| :: t[i] < 0x80 as char
  }

  /** A closing tag cannot reach into the rest of the bracket. */
  lemma TagNotInBracket(body: string, suffix: string)
    requires |body| >= 2 && body[1] == 0xA9 as char
    requires |suffix| >= 2 && forall i | 0 <= i < |suffix| :: suffix[i] < 0x80 as char
    ensures |body| - |suffix| < 2 ==> !EndsWith(body, suffix)
  {
    var at := |body| - |suffix|;
    if 0 <= at < 2 {
      assert Lower(body[at + (1 - at)]) != suffix[1 - at];
    }
  }

  lemma {:induction false} TagBehindBracket(body: string, tags: seq<string>)
    requires |body| >= 2 && body[1] == 0xA9 as char && AsciiTags(tags)
    ensures |body| - |ClosingTag(body, tags)| >= 2
  {
    if tags != [] {
      TagNotInBracket(body, tags[0]);
      TagBehindBracket(body, tags[1..]);
    }
  }

  lemma CuttableBehindMarker(content: string, tags: seq<string>)
    requires CloseIndex(content) < |content| && AsciiTags(tags)
    ensures MarkerEnd(content) == CloseIndex(content) + 1 && Cuttable(content, tags) >= 2
  {
    BracketBytes(content);
    TagBehindBracket(content[CloseIndex(content) + 1..], tags);
  }

  /** So a cut of two bytes or more leaves the whole marker in place, although the
      code steps over the first byte of its closing bracket only. */
  lemma MarkerKept(content: string, keep: nat, tags: seq<string>)
    requires CloseIndex(content) < |content| && keep >= 2 && AsciiTags(tags)
    ensures var marker := CloseIndex(content) + 3;
            marker <= |content| && content[..marker] <= Truncated(content, keep, tags)
  {
    CuttableBehindMarker(content, tags);
    TruncatedPrefix(content, keep, tags, CloseIndex(content) + 3);
  }

  lemma TagsAreAscii()
    ensures AsciiTags(TAGS)
  {
    forall t | t in TAGS ensures |t| >= 2 && forall i | 0 <= i < |t| :: t[i] < 0x80 as char {
      assert t == CONSTITUTION_END || t == FACTS_END;
    }
  }
}
