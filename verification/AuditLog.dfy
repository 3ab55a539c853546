/** The hash-chained audit log: what is hashed, how an entry is appended and cut
    off, and what the verifier accepts.

    SHA-256 and HMAC are parameters: any function to 64 lower-case hexadecimal
    digits, and any function to bytes.  No statement assumes that they have no
    collisions; a result that needs it names the two texts that would collide. */
module AuditLog {
  import opened Wrappers
  import opened CanonicalJson

  // ----------------------------------------------------------- hexadecimal

  predicate LowerHex(c: char) {
    '0' <= c <= '9' || 'a' <= c <= 'f'
  }

  predicate IsDigest(text: string) {
    |text| == 64 && forall i | 0 <= i < 64 :: LowerHex(text[i])
  }

  ghost const ZEROS: string := seq(64, _ => '0')

  type Digest = text: string | IsDigest(text) ghost witness ZEROS

  type Byte = n: int | 0 <= n < 256

  function Nibble(c: char): Option<nat> {
    if '0' <= c <= '9' then Some(c as int - '0' as int)
    else if 'a' <= c <= 'f' then Some(c as int - 'a' as int + 10)
    else if 'A' <= c <= 'F' then Some(c as int - 'A' as int + 10)
    else None
  }

  function EncodeHex(bytes: seq<Byte>): string {
    if bytes == [] then ""
    else [HexDigit(bytes[0] / 16), HexDigit(bytes[0] % 16)] + EncodeHex(bytes[1..])
  }

  /** Both letter cases are read; an odd length or any other character fails. */
  function DecodeHex(text: string): Option<seq<Byte>> {
    if text == "" then Some([])
    else if |text| == 1 then None
    else
      match (Nibble(text[0]), Nibble(text[1]), DecodeHex(text[2..]))
      case (Some(high), Some(low), Some(rest)) =>
        if high < 16 && low < 16 then Some([high * 16 + low] + rest) else None
      case _ => None
  }

  lemma {:induction false} DecodeEncodeHex(bytes: seq<Byte>)
    ensures DecodeHex(EncodeHex(bytes)) == Some(bytes)
  {
    if bytes != [] {
      DecodeEncodeHex(bytes[1..]);
      NibbleOfDigit(bytes[0] / 16);
      NibbleOfDigit(bytes[0] % 16);
      assert EncodeHex(bytes)[2..] == EncodeHex(bytes[1..]);
      assert bytes == [bytes[0]] + bytes[1..];
    }
  }

  lemma NibbleOfDigit(n: nat)
    requires n < 16
    ensures Nibble(HexDigit(n)) == Some(n)
  {
  }

  // --------------------------------------------------------------- entries

  ghost const NO_TAG: seq<Byte> := seq(32, _ => 0)

  /** The 256 bits of an HMAC-SHA256. */
  type Tag = bytes: seq<Byte> | |bytes| == 32 ghost witness NO_TAG

  /** A timestamp in the layout of section 5.6 of RFC 3339: a year of four
      digits and a `-`. */
  predicate IsStamp(text: string) {
    |text| >= 5 && text[4] == '-'
  }

  const ZERO_TIME: string := "0001-01-01T00:00:00Z"

  type Stamp = text: string | IsStamp(text) witness ZERO_TIME

  /** The fields of an entry that hashing, linking and signing read or write. */
  datatype Entry = Entry(
    prevHash: string, hash: string, timestamp: Stamp, source: string, action: string,
    input: Json, output: Json, signature: string)

  type Hash = string -> Digest
  type Mac = (seq<Byte>, string) -> Tag

  /** The text whose digest is the entry's hash. */
  ghost function Preimage(e: Entry): string {
    e.prevHash + (e.timestamp + (e.source + (e.action + (Canonical(e.input) + Canonical(e.output)))))
  }

  ghost function ComputeHash(H: Hash, e: Entry): string {
    H(Preimage(e))
  }

  function Sign(mac: Mac, key: seq<Byte>, e: Entry): Entry {
    e.(signature := EncodeHex(mac(key, e.hash)))
  }

  predicate VerifyEntry(mac: Mac, key: seq<Byte>, e: Entry) {
    e.signature != "" && DecodeHex(e.signature) == Some(mac(key, e.hash))
  }

  lemma SignedVerifies(mac: Mac, key: seq<Byte>, e: Entry)
    ensures VerifyEntry(mac, key, Sign(mac, key, e))
  {
    DecodeEncodeHex(mac(key, e.hash));
  }

  // ---------------------------------------------------------------- append

  datatype Config = Config(enabled: bool, key: seq<Byte>, maxEntries: int)

  /** A chain as a value: the entries in memory and the hash to link to. */
  datatype Chain = Chain(entries: seq<Entry>, lastHash: string)

  /** An entry with its blank timestamp, link and hash filled in. */
  ghost function Filled(H: Hash, last: string, now: Stamp, e: Entry): Entry {
    var stamped := if e.timestamp == ZERO_TIME then e.(timestamp := now) else e;
    var linked := if e.prevHash == "" then stamped.(prevHash := last) else stamped;
    if e.hash == "" then linked.(hash := ComputeHash(H, linked)) else linked
  }

  ghost function Sealed(H: Hash, mac: Mac, key: seq<Byte>, last: string, now: Stamp, e: Entry): Entry {
    var filled := Filled(H, last, now, e);
    if key != [] then Sign(mac, key, filled) else filled
  }

  /** The newest `max` of `items`; all of them if `max` is not positive. */
  function Cut<T>(max: int, items: seq<T>): seq<T> {
    if 0 < max < |items| then items[|items| - max..] else items
  }

  ghost function Appended(H: Hash, mac: Mac, cfg: Config, c: Chain, now: Stamp, e: Entry): Chain {
    if !cfg.enabled then c
    else
      var sealed := Sealed(H, mac, cfg.key, c.lastHash, now, e);
      Chain(Cut(cfg.maxEntries, c.entries + [sealed]), sealed.hash)
  }

  // ---------------------------------------------------------------- verify

  datatype Reason = NilEntry | PrevHashMismatch | HashMismatch | SignatureMismatch

  /** What the verifier reports on reaching entry `i`, if anything. */
  ghost function Fault(H: Hash, mac: Mac, key: seq<Byte>, entries: seq<Option<Entry>>, i: nat): Option<Reason>
    requires i < |entries|
  {
    if entries[i].None? then Some(NilEntry)
    else
      var e := entries[i].value;
      if i > 0 && entries[i - 1].Some? && e.prevHash != entries[i - 1].value.hash then Some(PrevHashMismatch)
      else if ComputeHash(H, e) != e.hash then Some(HashMismatch)
      else if key != [] && !VerifyEntry(mac, key, e) then Some(SignatureMismatch)
      else None
  }

  ghost predicate Accepted(H: Hash, mac: Mac, key: seq<Byte>, entries: seq<Option<Entry>>) {
    forall i | 0 <= i < |entries| :: Fault(H, mac, key, entries, i) == None
  }

  // ------------------------------------------------- what acceptance comes to

  /** The entry's link is not the hash of the entry before it. */
  predicate LinkBroken(entries: seq<Option<Entry>>, i: nat)
    requires i < |entries|
  {
    && i > 0 && entries[i].Some? && entries[i - 1].Some?
    && entries[i].value.prevHash != entries[i - 1].value.hash
  }

  /** Its hash is not the digest of the text that its fields make. */
  ghost predicate HashWrong(H: Hash, e: Entry) {
    e.hash != H(e.prevHash + e.timestamp + e.source + e.action + Canonical(e.input) + Canonical(e.output))
  }

  /** Its signature is not the hexadecimal MAC of its hash. */
  predicate SignatureWrong(mac: Mac, key: seq<Byte>, e: Entry) {
    DecodeHex(e.signature) != Some(mac(key, e.hash))
  }

  lemma PreimageIs(e: Entry)
    ensures Preimage(e) == e.prevHash + e.timestamp + e.source + e.action + Canonical(e.input) + Canonical(e.output)
  {
    var a, b, c, d, x, y := e.prevHash, e.timestamp, e.source, e.action, Canonical(e.input), Canonical(e.output);
    Regroup(a + b + c + d, x, y);
    Regroup(a + b + c, d, x + y);
    Regroup(a + b, c, d + (x + y));
    Regroup(a, b, c + (d + (x + y)));
  }

  /** The verifier's finding on one entry: which of the four things is wrong, the
      first in this order. */
  lemma FaultIff(H: Hash, mac: Mac, key: seq<Byte>, entries: seq<Option<Entry>>, i: nat)
    requires i < |entries|
    ensures var fault := Fault(H, mac, key, entries, i);
            if entries[i].None? then fault == Some(NilEntry)
            else
              var e := entries[i].value;
              && (fault == Some(PrevHashMismatch) <==> LinkBroken(entries, i))
              && (fault == Some(HashMismatch) <==> !LinkBroken(entries, i) && HashWrong(H, e))
              && (fault == Some(SignatureMismatch) <==>
                    !LinkBroken(entries, i) && !HashWrong(H, e) && key != [] && SignatureWrong(mac, key, e))
              && fault != Some(NilEntry)
  {
    if entries[i].Some? {
      PreimageIs(entries[i].value);
    }
  }

  /** Accepted is exactly a list without a gap in which every entry links to the one
      before it, has the digest of its own fields, and, with a key, carries the MAC. */
  lemma AcceptedIff(H: Hash, mac: Mac, key: seq<Byte>, entries: seq<Option<Entry>>)
    ensures Accepted(H, mac, key, entries) <==>
            forall i | 0 <= i < |entries| ::
              && entries[i].Some? && !LinkBroken(entries, i) && !HashWrong(H, entries[i].value)
              && (key != [] ==> !SignatureWrong(mac, key, entries[i].value))
  {
    forall i | 0 <= i < |entries|
      ensures Fault(H, mac, key, entries, i) == None <==>
              && entries[i].Some? && !LinkBroken(entries, i) && !HashWrong(H, entries[i].value)
              && (key != [] ==> !SignatureWrong(mac, key, entries[i].value))
    {
      FaultIff(H, mac, key, entries, i);
    }
  }

  /** So an entry that was rewritten and keeps its signature is found, or an earlier
      fault is, unless the MAC of its new hash is that of the old one. */
  lemma KeptSignatureFails(H: Hash, mac: Mac, key: seq<Byte>, entries: seq<Option<Entry>>, i: nat, was: Entry)
    requires key != [] && i < |entries| && entries[i].Some?
    requires !SignatureWrong(mac, key, was) && entries[i].value.signature == was.signature
    requires mac(key, entries[i].value.hash) != mac(key, was.hash)
    ensures Fault(H, mac, key, entries, i).Some? && !Accepted(H, mac, key, entries)
  {
    FaultIff(H, mac, key, entries, i);
    assert SignatureWrong(mac, key, entries[i].value);
    assert Fault(H, mac, key, entries, i) != None;
  }

  function Present(entries: seq<Entry>): (r: seq<Option<Entry>>)
    ensures |r| == |entries| && forall i | 0 <= i < |r| :: r[i] == Some(entries[i])
  {
    seq(|entries|, i requires 0 <= i < |entries| => Some(entries[i]))
  }

  ghost predicate Verified(H: Hash, mac: Mac, key: seq<Byte>, entries: seq<Entry>) {
    Accepted(H, mac, key, Present(entries))
  }

  /** The chain verifies and links to its newest entry. */
  ghost predicate Intact(H: Hash, mac: Mac, cfg: Config, c: Chain) {
    && Verified(H, mac, cfg.key, c.entries)
    && (c.entries != [] ==> c.lastHash == c.entries[|c.entries| - 1].hash)
    && (c.entries == [] ==> c.lastHash == "")
  }

  lemma CutVerified(H: Hash, mac: Mac, key: seq<Byte>, max: int, entries: seq<Entry>)
    requires Verified(H, mac, key, entries)
    ensures Verified(H, mac, key, Cut(max, entries))
  {
    var kept := Cut(max, entries);
    forall i | 0 <= i < |kept| ensures Fault(H, mac, key, Present(kept), i) == None {
      assert Fault(H, mac, key, Present(entries), i + |entries| - |kept|) == None;
    }
  }

  /** What a caller may put in an entry so that appending it keeps the chain
      verifiable: a blank link or the right one, a blank hash or the right one.
      The link does not matter when nothing older stays in memory. */
  ghost predicate Appendable(H: Hash, cfg: Config, c: Chain, now: Stamp, e: Entry) {
    && (e.prevHash == "" || e.prevHash == c.lastHash || c.entries == [] || cfg.maxEntries == 1)
    && (e.hash == "" || e.hash == ComputeHash(H, Filled(H, c.lastHash, now, e)))
  }

  /** Sealing leaves an entry whose own hash and signature are in order exactly
      when its hash was blank or right. */
  lemma SealedInOrder(H: Hash, mac: Mac, key: seq<Byte>, last: string, now: Stamp, e: Entry)
    ensures var s := Sealed(H, mac, key, last, now, e);
            && s.prevHash == (if e.prevHash == "" then last else e.prevHash)
            && (key != [] ==> VerifyEntry(mac, key, s))
            && (ComputeHash(H, s) == s.hash <==>
                e.hash == "" || e.hash == ComputeHash(H, Filled(H, last, now, e)))
  {
    var filled := Filled(H, last, now, e);
    SignedVerifies(mac, key, filled);
    assert Preimage(Sign(mac, key, filled)) == Preimage(filled);
    assert e.hash == "" ==> Preimage(filled.(hash := "")) == Preimage(filled);
  }

  lemma OlderStayInOrder(H: Hash, mac: Mac, key: seq<Byte>, max: int, entries: seq<Entry>, s: Entry, i: nat)
    requires Verified(H, mac, key, entries) && i + 1 < |Cut(max, entries + [s])|
    ensures Fault(H, mac, key, Present(Cut(max, entries + [s])), i) == None
  {
    var kept := Cut(max, entries + [s]);
    var j := i + |entries| + 1 - |kept|;
    assert kept[i] == entries[j] && (i > 0 ==> kept[i - 1] == entries[j - 1]);
    assert Fault(H, mac, key, Present(entries), j) == None;
  }

  lemma NewestInOrder(H: Hash, mac: Mac, cfg: Config, c: Chain, now: Stamp, e: Entry)
    requires Intact(H, mac, cfg, c)
    ensures var kept := Cut(cfg.maxEntries, c.entries + [Sealed(H, mac, cfg.key, c.lastHash, now, e)]);
            Fault(H, mac, cfg.key, Present(kept), |kept| - 1) == None <==> Appendable(H, cfg, c, now, e)
  {
    var s := Sealed(H, mac, cfg.key, c.lastHash, now, e);
    var kept := Cut(cfg.maxEntries, c.entries + [s]);
    var n := |kept| - 1;
    SealedInOrder(H, mac, cfg.key, c.lastHash, now, e);
    assert kept[n] == s;
    if n > 0 {
      assert kept[n - 1] == c.entries[|c.entries| - 1];
    }
  }

  /** Appending to an intact chain keeps it intact exactly for such entries. */
  lemma AppendKeepsIntact(H: Hash, mac: Mac, cfg: Config, c: Chain, now: Stamp, e: Entry)
    requires cfg.enabled && Intact(H, mac, cfg, c)
    ensures Intact(H, mac, cfg, Appended(H, mac, cfg, c, now, e)) <==> Appendable(H, cfg, c, now, e)
  {
    var s := Sealed(H, mac, cfg.key, c.lastHash, now, e);
    var kept := Cut(cfg.maxEntries, c.entries + [s]);
    NewestInOrder(H, mac, cfg, c, now, e);
    forall i | 0 <= i < |kept| - 1 ensures Fault(H, mac, cfg.key, Present(kept), i) == None {
      OlderStayInOrder(H, mac, cfg.key, cfg.maxEntries, c.entries, s, i);
    }
    assert kept[|kept| - 1] == s;
  }

  // ------------------------------------------------------------------- runs

  datatype Draft = Draft(entry: Entry, now: Stamp)

  ghost predicate Blank(d: Draft) {
    d.entry.prevHash == "" && d.entry.hash == ""
  }

  ghost function Run(H: Hash, mac: Mac, cfg: Config, drafts: seq<Draft>): Chain {
    if drafts == [] then Chain([], "")
    else
      var last := drafts[|drafts| - 1];
      Appended(H, mac, cfg, Run(H, mac, cfg, drafts[..|drafts| - 1]), last.now, last.entry)
  }

  lemma {:induction false} RunIntact(H: Hash, mac: Mac, cfg: Config, drafts: seq<Draft>)
    requires cfg.enabled && forall i | 0 <= i < |drafts| :: Blank(drafts[i])
    ensures Intact(H, mac, cfg, Run(H, mac, cfg, drafts))
  {
    if drafts != [] {
      var before, last := drafts[..|drafts| - 1], drafts[|drafts| - 1];
      RunIntact(H, mac, cfg, before);
      assert Blank(last);
      AppendKeepsIntact(H, mac, cfg, Run(H, mac, cfg, before), last.now, last.entry);
    }
  }

  ghost predicate SealOf(H: Hash, mac: Mac, key: seq<Byte>, d: Draft, s: Entry) {
    exists last :: s == Sealed(H, mac, key, last, d.now, d.entry)
  }

  /** Each entry is the draft at the same place, sealed. */
  ghost predicate SealsOf(H: Hash, mac: Mac, key: seq<Byte>, drafts: seq<Draft>, entries: seq<Entry>) {
    |drafts| == |entries| &&
    forall i | 0 <= i < |entries| :: SealOf(H, mac, key, drafts[i], entries[i])
  }

  lemma SealsCut(H: Hash, mac: Mac, key: seq<Byte>, max: int, drafts: seq<Draft>, entries: seq<Entry>)
    requires SealsOf(H, mac, key, drafts, entries)
    ensures SealsOf(H, mac, key, Cut(max, drafts), Cut(max, entries))
  {
  }

  lemma SealsSnoc(H: Hash, mac: Mac, key: seq<Byte>, drafts: seq<Draft>, entries: seq<Entry>, d: Draft, last: string)
    requires SealsOf(H, mac, key, drafts, entries)
    ensures SealsOf(H, mac, key, drafts + [d], entries + [Sealed(H, mac, key, last, d.now, d.entry)])
  {
    assert SealOf(H, mac, key, d, Sealed(H, mac, key, last, d.now, d.entry));
  }

  /** Cutting after every append leaves what one cut at the end would. */
  lemma CutSnoc<T>(max: int, items: seq<T>, item: T)
    ensures Cut(max, Cut(max, items) + [item]) == Cut(max, items + [item])
  {
  }

  lemma {:induction false} RunKeepsNewest(H: Hash, mac: Mac, cfg: Config, drafts: seq<Draft>)
    requires cfg.enabled
    ensures SealsOf(H, mac, cfg.key, Cut(cfg.maxEntries, drafts), Run(H, mac, cfg, drafts).entries)
  {
    if drafts != [] {
      var before, last := drafts[..|drafts| - 1], drafts[|drafts| - 1];
      RunKeepsNewest(H, mac, cfg, before);
      var b := Run(H, mac, cfg, before);
      SealsSnoc(H, mac, cfg.key, Cut(cfg.maxEntries, before), b.entries, last, b.lastHash);
      SealsCut(H, mac, cfg.key, cfg.maxEntries, Cut(cfg.maxEntries, before) + [last],
               b.entries + [Sealed(H, mac, cfg.key, b.lastHash, last.now, last.entry)]);
      CutSnoc(cfg.maxEntries, before, last);
      assert before + [last] == drafts;
    }
  }

  /** Every run of appends of blank entries leaves a chain that verifies, with
      or without a key, and memory holds exactly the newest entries: the drafts
      of the end of the run, sealed, in order. */
  lemma RunVerifies(H: Hash, mac: Mac, cfg: Config, drafts: seq<Draft>)
    requires cfg.enabled && forall i | 0 <= i < |drafts| :: Blank(drafts[i])
    ensures Intact(H, mac, cfg, Run(H, mac, cfg, drafts))
    ensures SealsOf(H, mac, cfg.key, Cut(cfg.maxEntries, drafts), Run(H, mac, cfg, drafts).entries)
  {
    RunIntact(H, mac, cfg, drafts);
    RunKeepsNewest(H, mac, cfg, drafts);
  }

  /** The entry records the draft: its content, the time it was given or else the
      clock's, and the MAC of its hash if there is a key. */
  predicate RecordsDraft(mac: Mac, key: seq<Byte>, d: Draft, e: Entry) {
    && e.source == d.entry.source && e.action == d.entry.action
    && e.input == d.entry.input && e.output == d.entry.output
    && e.timestamp == (if d.entry.timestamp == ZERO_TIME then d.now else d.entry.timestamp)
    && if key == [] then e.signature == d.entry.signature else DecodeHex(e.signature) == Some(mac(key, e.hash))
  }

  lemma SealRecords(H: Hash, mac: Mac, key: seq<Byte>, d: Draft, e: Entry)
    requires SealOf(H, mac, key, d, e)
    ensures RecordsDraft(mac, key, d, e)
  {
    var last :| e == Sealed(H, mac, key, last, d.now, d.entry);
    SignedVerifies(mac, key, Filled(H, last, d.now, d.entry));
  }

  lemma KeptRecords(H: Hash, mac: Mac, key: seq<Byte>, drafts: seq<Draft>, kept: seq<Entry>, j: nat)
    requires SealsOf(H, mac, key, drafts, kept) && Verified(H, mac, key, kept) && j < |kept|
    ensures RecordsDraft(mac, key, drafts[j], kept[j]) && !HashWrong(H, kept[j])
    ensures j > 0 ==> kept[j].prevHash == kept[j - 1].hash
  {
    assert SealOf(H, mac, key, drafts[j], kept[j]);
    SealRecords(H, mac, key, drafts[j], kept[j]);
    EntryInOrder(H, mac, key, kept, j);
    PreimageIs(kept[j]);
  }

  lemma CutAt<T>(max: int, items: seq<T>, j: nat)
    ensures |Cut(max, items)| == if max > 0 && max < |items| then max else |items|
    ensures j < |Cut(max, items)| ==> Cut(max, items)[j] == items[|items| - |Cut(max, items)| + j]
  {
  }

  /** Read off the memory: after such a run it holds the newest drafts, as many as the
      limit allows, in order; each entry records its draft, has the digest of its own
      fields, and links to the one before it. */
  lemma RunRecords(H: Hash, mac: Mac, cfg: Config, drafts: seq<Draft>, j: nat)
    requires cfg.enabled && forall i | 0 <= i < |drafts| :: Blank(drafts[i])
    ensures var kept := Run(H, mac, cfg, drafts).entries;
            |kept| == if cfg.maxEntries > 0 && cfg.maxEntries < |drafts| then cfg.maxEntries else |drafts|
    ensures var kept := Run(H, mac, cfg, drafts).entries;
            j < |kept| ==>
              && RecordsDraft(mac, cfg.key, drafts[|drafts| - |kept| + j], kept[j])
              && !HashWrong(H, kept[j])
              && (j > 0 ==> kept[j].prevHash == kept[j - 1].hash)
  {
    RunVerifies(H, mac, cfg, drafts);
    var kept := Run(H, mac, cfg, drafts).entries;
    CutAt(cfg.maxEntries, drafts, j);
    if j < |kept| {
      KeptRecords(H, mac, cfg.key, Cut(cfg.maxEntries, drafts), kept, j);
    }
  }

  /** Unless older entries were cut off, the first one is a root. */
  lemma {:induction false} RunBeginsAtRoot(H: Hash, mac: Mac, cfg: Config, drafts: seq<Draft>)
    requires cfg.enabled && cfg.maxEntries <= 0 && forall i | 0 <= i < |drafts| :: Blank(drafts[i])
    ensures var kept := Run(H, mac, cfg, drafts).entries;
            |kept| == |drafts| && (kept != [] ==> kept[0].prevHash == "")
  {
    if drafts != [] {
      RunBeginsAtRoot(H, mac, cfg, drafts[..|drafts| - 1]);
      assert Blank(drafts[|drafts| - 1]);
    }
  }

  // ------------------------------------------------- a final hash pins a chain

  /** Two different texts, one hashed in each chain, with the same digest. */
  ghost predicate Collision(H: Hash, a: seq<Entry>, b: seq<Entry>) {
    exists i, j | 0 <= i < |a| && 0 <= j < |b| ::
      Preimage(a[i]) != Preimage(b[j]) && H(Preimage(a[i])) == H(Preimage(b[j]))
  }

  lemma EntryInOrder(H: Hash, mac: Mac, key: seq<Byte>, a: seq<Entry>, i: nat)
    requires Verified(H, mac, key, a) && i < |a|
    ensures a[i].hash == H(Preimage(a[i]))
    ensures i > 0 ==> a[i].prevHash == a[i - 1].hash && IsDigest(a[i].prevHash)
  {
    assert Fault(H, mac, key, Present(a), i) == None;
    if i > 0 {
      assert Fault(H, mac, key, Present(a), i - 1) == None;
    }
  }

  /** The link of an entry can be read off its hashed text: 64 hexadecimal
      digits at its start, or a timestamp, which has a `-` among them. */
  lemma PreimageGivesLink(e: Entry, f: Entry)
    requires Preimage(e) == Preimage(f)
    requires IsDigest(e.prevHash) || e.prevHash == ""
    requires IsDigest(f.prevHash) || f.prevHash == ""
    ensures e.prevHash == f.prevHash
  {
    LinkOfPreimage(e);
    LinkOfPreimage(f);
  }

  lemma LinkOfPreimage(e: Entry)
    requires IsDigest(e.prevHash) || e.prevHash == ""
    ensures |Preimage(e)| > 4
    ensures Preimage(e)[4] == '-' <==> e.prevHash == ""
    ensures e.prevHash != "" ==> |Preimage(e)| >= 64 && e.prevHash == Preimage(e)[..64]
  {
    var rest := e.source + (e.action + (Canonical(e.input) + Canonical(e.output)));
    assert Preimage(e) == e.prevHash + (e.timestamp + rest);
    assert (e.timestamp + rest)[4] == '-';
    if e.prevHash == "" {
      assert "" + (e.timestamp + rest) == e.timestamp + rest;
    } else {
      assert Preimage(e)[4] == e.prevHash[4] && LowerHex(e.prevHash[4]);
    }
  }

  /** The two entries have the same hash and hashed text, or there is a collision. */
  ghost predicate Pinned(H: Hash, a: seq<Entry>, b: seq<Entry>, i: nat, j: nat)
    requires i < |a| && j < |b|
  {
    Collision(H, a, b) || (a[i].hash == b[j].hash && Preimage(a[i]) == Preimage(b[j]))
  }

  lemma PinnedEnd(H: Hash, mac: Mac, key: seq<Byte>, a: seq<Entry>, b: seq<Entry>, i: nat, j: nat)
    requires Verified(H, mac, key, a) && Verified(H, mac, key, b)
    requires i < |a| && j < |b| && a[i].hash == b[j].hash
    ensures Pinned(H, a, b, i, j)
  {
    if !Collision(H, a, b) {
      SameHashSameText(H, mac, key, a, b, i, j);
    }
  }

  lemma PinnedStep(H: Hash, mac: Mac, key: seq<Byte>, a: seq<Entry>, b: seq<Entry>, i: nat, j: nat)
    requires Verified(H, mac, key, a) && Verified(H, mac, key, b)
    requires i + 1 < |a| && j + 1 < |b| && Pinned(H, a, b, i + 1, j + 1)
    ensures Pinned(H, a, b, i, j)
  {
    if !Collision(H, a, b) {
      LinksAgree(H, mac, key, a, b, i + 1, j + 1);
      PinnedEnd(H, mac, key, a, b, i, j);
    }
  }

  /** Going back from equal hashes, the hashed texts agree as far as both chains
      reach, or two of them collide. */
  lemma {:induction false} SuffixPinned(H: Hash, mac: Mac, key: seq<Byte>, a: seq<Entry>, b: seq<Entry>, i: nat, j: nat)
    requires Verified(H, mac, key, a) && Verified(H, mac, key, b)
    requires i < |a| && j < |b| && |a| - i == |b| - j && a[|a| - 1].hash == b[|b| - 1].hash
    ensures Pinned(H, a, b, i, j)
    decreases |a| - i
  {
    if i + 1 == |a| {
      PinnedEnd(H, mac, key, a, b, i, j);
    } else {
      SuffixPinned(H, mac, key, a, b, i + 1, j + 1);
      PinnedStep(H, mac, key, a, b, i, j);
    }
  }

  lemma LinksAgree(H: Hash, mac: Mac, key: seq<Byte>, a: seq<Entry>, b: seq<Entry>, i: nat, j: nat)
    requires Verified(H, mac, key, a) && Verified(H, mac, key, b)
    requires 0 < i < |a| && 0 < j < |b| && Preimage(a[i]) == Preimage(b[j])
    ensures a[i - 1].hash == b[j - 1].hash
  {
    EntryInOrder(H, mac, key, a, i);
    EntryInOrder(H, mac, key, b, j);
    PreimageGivesLink(a[i], b[j]);
  }

  lemma SameHashSameText(H: Hash, mac: Mac, key: seq<Byte>, a: seq<Entry>, b: seq<Entry>, i: nat, j: nat)
    requires Verified(H, mac, key, a) && Verified(H, mac, key, b) && !Collision(H, a, b)
    requires i < |a| && j < |b| && a[i].hash == b[j].hash
    ensures Preimage(a[i]) == Preimage(b[j])
  {
    EntryInOrder(H, mac, key, a, i);
    EntryInOrder(H, mac, key, b, j);
  }

  lemma LengthsAgree(H: Hash, mac: Mac, key: seq<Byte>, a: seq<Entry>, b: seq<Entry>)
    requires Verified(H, mac, key, a) && Verified(H, mac, key, b)
    requires a != [] && b != [] && a[0].prevHash == "" && b[0].prevHash == ""
    requires a[|a| - 1].hash == b[|b| - 1].hash && |a| < |b|
    ensures Collision(H, a, b)
  {
    SuffixPinned(H, mac, key, a, b, 0, |b| - |a|);
    RootNotLater(H, mac, key, a, b, |b| - |a|);
  }

  /** A root entry never has the hashed text of a later one. */
  lemma RootNotLater(H: Hash, mac: Mac, key: seq<Byte>, a: seq<Entry>, b: seq<Entry>, j: nat)
    requires Verified(H, mac, key, b) && a != [] && a[0].prevHash == "" && 0 < j < |b|
    ensures Preimage(a[0]) != Preimage(b[j])
  {
    EntryInOrder(H, mac, key, b, j);
    LinkOfPreimage(a[0]);
    LinkOfPreimage(b[j]);
  }

  lemma CollisionSymmetric(H: Hash, a: seq<Entry>, b: seq<Entry>)
    requires Collision(H, b, a)
    ensures Collision(H, a, b)
  {
    var i, j :| 0 <= i < |b| && 0 <= j < |a| &&
                Preimage(b[i]) != Preimage(a[j]) && H(Preimage(b[i])) == H(Preimage(a[j]));
    assert Preimage(a[j]) != Preimage(b[i]);
  }

  /** Main result: two chains that verify, start at a root and end in the same
      hash are equally long and agree in every hashed text, link and hash, or
      two of their own hashed texts are a collision of the digest. */
  lemma FinalHashPinsChain(H: Hash, mac: Mac, key: seq<Byte>, a: seq<Entry>, b: seq<Entry>)
    requires Verified(H, mac, key, a) && Verified(H, mac, key, b)
    requires a != [] && b != [] && a[0].prevHash == "" && b[0].prevHash == ""
    requires a[|a| - 1].hash == b[|b| - 1].hash
    ensures Collision(H, a, b) ||
            (|a| == |b| && forall i | 0 <= i < |a| ::
               Preimage(a[i]) == Preimage(b[i]) && a[i].prevHash == b[i].prevHash && a[i].hash == b[i].hash)
  {
    if |a| < |b| {
      LengthsAgree(H, mac, key, a, b);
    } else if |b| < |a| {
      LengthsAgree(H, mac, key, b, a);
      CollisionSymmetric(H, a, b);
    } else if !Collision(H, a, b) {
      forall i | 0 <= i < |a|
        ensures Preimage(a[i]) == Preimage(b[i]) && a[i].prevHash == b[i].prevHash && a[i].hash == b[i].hash
      {
        SuffixPinned(H, mac, key, a, b, i, i);
        EntryInOrder(H, mac, key, a, i);
        EntryInOrder(H, mac, key, b, i);
        PreimageGivesLink(a[i], b[i]);
      }
    }
  }

  // --------------------------------------------- what a hashed text determines

  /** Moving characters between source and action changes the hashed text
      exactly when it changes their concatenation. */
  lemma SourceActionBoundary(e: Entry, source: string, action: string)
    ensures Preimage(e.(source := source, action := action)) == Preimage(e)
       <==> source + action == e.source + e.action
  {
    var tail := Canonical(e.input) + Canonical(e.output);
    Regroup(source, action, tail);
    Regroup(e.source, e.action, tail);
    if Preimage(e.(source := source, action := action)) == Preimage(e) {
      DropPrefix(e.prevHash, e.timestamp + (source + (action + tail)), e.timestamp + (e.source + (e.action + tail)));
      DropPrefix(e.timestamp, source + (action + tail), e.source + (e.action + tail));
      DropSuffix(source + action, e.source + e.action, tail);
    }
  }

  lemma DropSuffix(r: string, t: string, p: string)
    requires r + p == t + p
    ensures r == t
  {
    assert |r + p| == |t + p|;
    assert r == (r + p)[..|r|] == (t + p)[..|t|] == t;
  }

  /** Four numbers whose numerals run together alike. */
  predicate RunTogether(a: Json, b: Json, c: Json, d: Json) {
    a.Number? && b.Number? && c.Number? && d.Number? && a.numeral + b.numeral == c.numeral + d.numeral
  }

  /** With source and action fixed, the hashed text is that of other values exactly
      if all four are numbers whose numerals run together alike. */
  lemma PreimageDeterminesValues(e: Entry, input: Json, output: Json)
    ensures Preimage(e.(input := input, output := output)) == Preimage(e)
       <==> (input == e.input && output == e.output) || RunTogether(input, output, e.input, e.output)
  {
    var r, t := Canonical(input) + Canonical(output), Canonical(e.input) + Canonical(e.output);
    RunTogetherIff(input, output, e.input, e.output);
    if Preimage(e.(input := input, output := output)) == Preimage(e) {
      DropPrefix(e.prevHash, e.timestamp + (e.source + (e.action + r)), e.timestamp + (e.source + (e.action + t)));
      DropPrefix(e.timestamp, e.source + (e.action + r), e.source + (e.action + t));
      DropPrefix(e.source, e.action + r, e.action + t);
      DropPrefix(e.action, r, t);
      if e.input.Number? && e.output.Number? {
        OnlyNumbers(e.input.numeral, e.output.numeral, input, output);
      } else {
        PairCancels(e.input, e.output, input, output);
      }
    }
  }

  lemma RunTogetherIff(a: Json, b: Json, c: Json, d: Json)
    ensures a.Number? && b.Number? && c.Number? && d.Number? ==>
              (RunTogether(a, b, c, d) <==> Canonical(a) + Canonical(b) == Canonical(c) + Canonical(d))
  {
    assert forall v: Json :: v.Number? ==> Canonical(v) == v.numeral;
  }

  /** Two numerals are the text of two numbers only. */
  lemma OnlyNumbers(n: Numeral, m: Numeral, c: Json, d: Json)
    requires Canonical(c) + Canonical(d) == n + m
    ensures c.Number? && d.Number?
  {
    KindOfPrinted(c, "");
    KindOfPrinted(d, "");
    assert forall i | 0 <= i < |n + m| :: NumeralChar((n + m)[i]);
    assert (Canonical(c) + Canonical(d))[0] == Canonical(c)[0];
    assert (Canonical(c) + Canonical(d))[|Canonical(c)|] == Canonical(d)[0];
  }

  lemma PairCancels(a: Json, b: Json, c: Json, d: Json)
    requires Canonical(a) + Canonical(b) == Canonical(c) + Canonical(d)
    requires !(a.Number? && b.Number?)
    ensures a == c && b == d
  {
    PrintedSplit(a, "", Canonical(b));
    PrintedSplit(c, "", Canonical(d));
    assert "" + Canonical(b) == Canonical(b) && "" + Canonical(d) == Canonical(d);
    if a.Number? && c.Number? {
      NumeralBefore(a.numeral, b, c.numeral, d);
    } else {
      PrintedCancels(a, c, Canonical(b), Canonical(d));
    }
    CanonicalIffEqual(b, d);
  }

  lemma ShorterNumeral(n: Numeral, b: Json, m: Numeral, rest: string)
    requires n + Canonical(b) == m + rest && |n| < |m|
    ensures b.Number?
  {
    KindOfPrinted(b, "");
    assert (n + Canonical(b))[|n|] == Canonical(b)[0] && (m + rest)[|n|] == m[|n|];
    assert NumeralChar(m[|n|]);
  }

  lemma LongerNumeralBefore(n: Numeral, b: Json, m: Numeral, d: Numeral)
    requires n + Canonical(b) == m + d && |m| < |n|
    ensures b.Number?
  {
    KindOfPrinted(b, "");
    assert (n + Canonical(b))[|n|] == Canonical(b)[0] && (m + d)[|n|] == d[|n| - |m|];
    assert NumeralChar(d[|n| - |m|]);
  }

  lemma NumeralBefore(n: Numeral, b: Json, m: Numeral, d: Json)
    requires n + Canonical(b) == m + Canonical(d) && !b.Number?
    ensures n == m && Canonical(b) == Canonical(d)
  {
    if |n| < |m| {
      ShorterNumeral(n, b, m, Canonical(d));
    } else if |m| < |n| {
      ShorterNumeral(m, d, n, Canonical(b));
      assert Canonical(d) == d.numeral;
      LongerNumeralBefore(n, b, m, d.numeral);
    }
    assert n == (n + Canonical(b))[..|n|] == (m + Canonical(d))[..|m|] == m;
    DropPrefix(n, Canonical(b), Canonical(d));
  }

  /** The exception is real: an entry with input 1 and output 23 and one with
      input 12 and output 3 hash alike under every digest. */
  lemma NumbersRunTogether(H: Hash, e: Entry)
    ensures ComputeHash(H, e.(input := Number("1"), output := Number("23")))
         == ComputeHash(H, e.(input := Number("12"), output := Number("3")))
  {
    var f, g := e.(input := Number("1"), output := Number("23")), e.(input := Number("12"), output := Number("3"));
    assert Canonical(f.input) == "1" && Canonical(f.output) == "23";
    assert Canonical(g.input) == "12" && Canonical(g.output) == "3";
    assert "1" + "23" == "12" + "3";
  }

  // ------------------------------------------------------------- the classes

  class AuditEntry {
    var id: string
    var prevHash: string
    var hash: string
    var timestamp: Stamp
    var source: string
    var action: string
    var input: Json
    var output: Json
    var signature: string

    constructor (source: string, action: string, input: Json, output: Json)
      ensures View() == Entry("", "", ZERO_TIME, source, action, input, output, "") && id == ""
    {
      this.id, this.prevHash, this.hash, this.timestamp, this.signature := "", "", "", ZERO_TIME, "";
      this.source, this.action, this.input, this.output := source, action, input, output;
    }

    function View(): Entry
      reads this
    {
      Entry(prevHash, hash, timestamp, source, action, input, output, signature)
    }

    /** Fills what is blank, in this order, and signs if there is a key. */
    method Seal(H: Hash, mac: Mac, key: seq<Byte>, last: string, now: Stamp)
      modifies this
      ensures View() == Sealed(H, mac, key, last, now, old(View())) && id == old(id)
    {
      if timestamp == ZERO_TIME {
        timestamp := now;
      }
      if prevHash == "" {
        prevHash := last;
      }
      if hash == "" {
        hash := HashEntry(H, this);
      }
      if |key| > 0 {
        signature := EncodeHex(mac(key, hash));
      }
    }
  }

  function Views(entries: seq<AuditEntry?>): (r: seq<Option<Entry>>)
    reads entries
    ensures |r| == |entries|
    ensures forall i | 0 <= i < |r| :: r[i] == if entries[i] == null then None else Some(entries[i].View())
  {
    seq(|entries|, i requires 0 <= i < |entries| reads entries =>
      if entries[i] == null then None else Some(entries[i].View()))
  }

  method HashEntry(H: Hash, e: AuditEntry) returns (hash: string)
    ensures hash == ComputeHash(H, e.View())
  {
    var input := Marshal(e.input);
    var output := Marshal(e.output);
    hash := H(e.prevHash + (e.timestamp + (e.source + (e.action + (input + output)))));
  }

  class AuditChain {
    const H: Hash
    const mac: Mac
    const cfg: Config
    var entries: seq<AuditEntry?>
    var lastHash: string
    var seqno: nat

    constructor (H: Hash, mac: Mac, cfg: Config)
      ensures entries == [] && lastHash == "" && seqno == 0
      ensures this.H == H && this.mac == mac && this.cfg == cfg
    {
      this.H, this.mac, this.cfg := H, mac, cfg;
      entries, lastHash, seqno := [], "", 0;
    }

    ghost function Value(): Chain
      requires forall i | 0 <= i < |entries| :: entries[i] != null
      reads this, entries
    {
      var es := entries;
      Chain(seq(|es|, i requires 0 <= i < |es| && es[i] != null reads es => es[i].View()), lastHash)
    }

    /** Memory holds entries only, as a chain that verifies and links. */
    ghost predicate Good()
      reads this, entries
    {
      (forall i | 0 <= i < |entries| :: entries[i] != null) && Intact(H, mac, cfg, Value())
    }

    /** `VerifyChain` returns no error for a good chain. */
    lemma GoodIsAccepted()
      requires Good()
      ensures Accepted(H, mac, cfg.key, Views(entries))
    {
      assert Present(Value().entries) == Views(entries);
    }

    /** `clockNow` is the one clock reading, `autoId` the ID made of it and the
        sequence number. */
    method Record(entry: AuditEntry, clockNow: Stamp, autoId: string)
      modifies this, entry
      ensures entry.View() == Sealed(H, mac, cfg.key, old(lastHash), clockNow, old(entry.View()))
      ensures entry.id == if old(entry.id) == "" then autoId else old(entry.id)
      ensures entries == Cut(cfg.maxEntries, old(entries) + [entry])
      ensures lastHash == entry.hash
      ensures seqno == if old(entry.id) == "" then old(seqno) + 1 else old(seqno)
    {
      if entry.id == "" {
        seqno := seqno + 1;
        entry.id := autoId;
      }
      entry.Seal(H, mac, cfg.key, lastHash, clockNow);
      Keep(entry);
    }

    /** The newest entry goes to the end, and the oldest are cut off. */
    method Keep(entry: AuditEntry)
      modifies this`entries, this`lastHash
      ensures entries == Cut(cfg.maxEntries, old(entries) + [entry]) && lastHash == entry.hash
    {
      entries := entries + [entry];
      lastHash := entry.hash;
      if 0 < cfg.maxEntries < |entries| {
        var drop := |entries| - cfg.maxEntries;
        entries := entries[drop..];
      }
    }

    /** `stored` says whether the storage accepts the entry.  A good chain stays
        good exactly when the entry, not yet in it, is `Appendable`. */
    method Append(entry: AuditEntry?, clockNow: Stamp, autoId: string, stored: bool)
      returns (hash: string, failed: bool)
      modifies this, entry
      ensures entry == null || !cfg.enabled ==>
                hash == "" && !failed && unchanged(this) && (entry != null ==> unchanged(entry))
      ensures entry != null && cfg.enabled ==>
                && entry.View() == Sealed(H, mac, cfg.key, old(lastHash), clockNow, old(entry.View()))
                && entries == Cut(cfg.maxEntries, old(entries) + [entry])
                && entry.id == (if old(entry.id) == "" then autoId else old(entry.id))
                && seqno == (if old(entry.id) == "" then old(seqno) + 1 else old(seqno))
                && lastHash == hash == entry.hash
                && failed == !stored
      ensures old(Good()) && entry != null && cfg.enabled && entry !in old(entries) ==>
                (Good() <==> Appendable(H, cfg, old(Value()), clockNow, old(entry.View())))
    {
      hash, failed := "", false;
      if entry != null && cfg.enabled {
        ghost var draft, older, good := entry.View(), entries, Good();
        ghost var before := if good then Value() else Chain([], "");
        Record(entry, clockNow, autoId);
        hash, failed := entry.hash, !stored;
        if good && entry !in older {
          assert forall i | 0 <= i < |older| :: older[i].View() == before.entries[i];
          GoodAfter(before, older, entry, draft, clockNow);
        }
      }
    }

    /** The new value, when the older entries still have the values in `c`. */
    lemma ValueAfter(c: Chain, older: seq<AuditEntry?>, entry: AuditEntry, draft: Entry, now: Stamp)
      requires |older| == |c.entries|
      requires forall i | 0 <= i < |older| :: older[i] != null && older[i].View() == c.entries[i]
      requires entries == Cut(cfg.maxEntries, older + [entry]) && lastHash == entry.hash && cfg.enabled
      requires entry.View() == Sealed(H, mac, cfg.key, c.lastHash, now, draft)
      ensures forall i | 0 <= i < |entries| :: entries[i] != null
      ensures Value() == Appended(H, mac, cfg, c, now, draft)
    {
      var v, a := Value().entries, Appended(H, mac, cfg, c, now, draft).entries;
      forall i | 0 <= i < |v| ensures v[i] == a[i] {
        var j := i + |older| + 1 - |entries|;
        assert entries[i] == (older + [entry])[j];
      }
    }

    lemma GoodAfter(c: Chain, older: seq<AuditEntry?>, entry: AuditEntry, draft: Entry, now: Stamp)
      requires |older| == |c.entries| && Intact(H, mac, cfg, c)
      requires forall i | 0 <= i < |older| :: older[i] != null && older[i].View() == c.entries[i]
      requires entries == Cut(cfg.maxEntries, older + [entry]) && lastHash == entry.hash && cfg.enabled
      requires entry.View() == Sealed(H, mac, cfg.key, c.lastHash, now, draft)
      ensures Good() <==> Appendable(H, cfg, c, now, draft)
    {
      ValueAfter(c, older, entry, draft, now);
      AppendKeepsIntact(H, mac, cfg, c, now, draft);
    }

    /** One step of the walk. */
    method VerifyAt(snapshot: seq<AuditEntry?>, i: nat) returns (fault: Option<Reason>)
      requires i < |snapshot| && (i > 0 ==> snapshot[i - 1] != null)
      ensures fault == Fault(H, mac, cfg.key, Views(snapshot), i)
    {
      var e := snapshot[i];
      if e == null {
        return Some(NilEntry);
      }
      if i > 0 {
        var prev := snapshot[i - 1];
        if e.prevHash != prev.hash {
          return Some(PrevHashMismatch);
        }
      }
      var got := HashEntry(H, e);
      if got != e.hash {
        return Some(HashMismatch);
      }
      if |cfg.key| > 0 {
        if !VerifyEntry(mac, cfg.key, e.View()) {
          return Some(SignatureMismatch);
        }
      }
      return None;
    }

    /** The least index at which the walk finds a fault, and that fault. */
    method VerifyChain() returns (error: Option<(nat, Reason)>)
      ensures error == None <==> Accepted(H, mac, cfg.key, Views(entries))
      ensures error == None && cfg.key != [] ==>
                forall i | 0 <= i < |entries| ::
                  entries[i] != null && DecodeHex(entries[i].signature) == Some(mac(cfg.key, entries[i].hash))
      ensures error.Some? ==>
                var (index, reason) := error.value;
                && index < |entries|
                && Fault(H, mac, cfg.key, Views(entries), index) == Some(reason)
                && forall i | 0 <= i < index :: Fault(H, mac, cfg.key, Views(entries), i) == None
    {
      var snapshot := entries;
      var i := 0;
      while i < |snapshot|
        invariant 0 <= i <= |snapshot|
        invariant forall j | 0 <= j < i :: Fault(H, mac, cfg.key, Views(snapshot), j) == None
      {
        assert i > 0 ==> Fault(H, mac, cfg.key, Views(snapshot), i - 1) == None;
        var fault := VerifyAt(snapshot, i);
        if fault.Some? {
          return Some((i, fault.value));
        }
        i := i + 1;
      }
      AcceptedIff(H, mac, cfg.key, Views(snapshot));
      return None;
    }
  }
}
