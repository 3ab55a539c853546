/** The tool-result cache: a map and a recency list under a limit on the number
    of entries and a limit on their total size, with a deadline on each entry. */
module ResultCache {
  import opened Wrappers

  // ------------------------------------------------------------------ values

  datatype ActionResult = ActionResult(ok: bool, payload: string)

  /** One cached result as a value; the front of a sequence is the most recent. */
  datatype Item = Item(key: string, value: ActionResult, deadline: int, size: nat)

  function Total(items: seq<Item>): nat {
    if items == [] then 0 else items[0].size + Total(items[1..])
  }

  predicate Fits(items: seq<Item>, maxEntries: int, maxBytes: int) {
    |items| <= maxEntries && Total(items) <= maxBytes
  }

  /** Drops items from the back until the rest fits or nothing is left. */
  function Evicted(items: seq<Item>, maxEntries: int, maxBytes: int): seq<Item>
    decreases |items|
  {
    if items == [] || Fits(items, maxEntries, maxBytes) then items
    else Evicted(items[..|items| - 1], maxEntries, maxBytes)
  }

  lemma {:induction false} TotalSplit(items: seq<Item>, n: nat)
    requires n <= |items|
    ensures Total(items) == Total(items[..n]) + Total(items[n..])
  {
    if n > 0 {
      TotalSplit(items[1..], n - 1);
      assert items[1..][..n - 1] == items[..n][1..];
      assert items[1..][n - 1..] == items[n..];
    } else {
      assert items[n..] == items;
    }
  }

  /** What eviction leaves is the longest prefix of the recency order within both
      limits: it fits, unless nothing at all does, and no longer prefix fits. */
  lemma {:induction false} EvictedIsLongest(items: seq<Item>, maxEntries: int, maxBytes: int)
    ensures var kept := Evicted(items, maxEntries, maxBytes);
            && kept <= items
            && (Fits(kept, maxEntries, maxBytes) || kept == [])
            && forall n | |kept| < n <= |items| :: !Fits(items[..n], maxEntries, maxBytes)
    decreases |items|
  {
    if items != [] && !Fits(items, maxEntries, maxBytes) {
      var shorter := items[..|items| - 1];
      EvictedIsLongest(shorter, maxEntries, maxBytes);
      forall n | |Evicted(items, maxEntries, maxBytes)| < n <= |items|
        ensures !Fits(items[..n], maxEntries, maxBytes)
      {
        assert n < |items| ==> items[..n] == shorter[..n];
        assert n == |items| ==> items[..n] == items;
      }
    } else {
      assert items[..|items|] == items;
    }
  }

  // ---------------------------------------------------- operations on values

  /** The place of `key`, or the length if it is absent. */
  function Find(items: seq<Item>, key: string): (n: nat)
    ensures n <= |items|
    ensures n < |items| ==> items[n].key == key
    ensures forall i | 0 <= i < n :: items[i].key != key
  {
    if items == [] then 0
    else if items[0].key == key then 0
    else 1 + Find(items[1..], key)
  }

  function Without(items: seq<Item>, n: nat): seq<Item>
    requires n < |items|
  {
    items[..n] + items[n + 1..]
  }

  function Got(items: seq<Item>, key: string, now: int): (seq<Item>, Option<ActionResult>) {
    var n := Find(items, key);
    if n == |items| then (items, None)
    else if now > items[n].deadline then (Without(items, n), None)
    else ([items[n]] + Without(items, n), Some(items[n].value))
  }

  /** The items of the other keys. */
  function Others(items: seq<Item>, key: string): seq<Item> {
    var n := Find(items, key);
    if n == |items| then items else Without(items, n)
  }

  /** What a put leaves before evicting. */
  function Fronted(items: seq<Item>, item: Item): seq<Item> {
    [item] + Others(items, item.key)
  }

  function AfterPut(items: seq<Item>, item: Item, maxEntries: int, maxBytes: int): seq<Item> {
    Evicted(Fronted(items, item), maxEntries, maxBytes)
  }

  predicate Distinct(items: seq<Item>) {
    forall i, j | 0 <= i < j < |items| :: items[i].key != items[j].key
  }

  // -------------------------------------------------------------------- runs

  datatype Op = PutOp(item: Item) | GetOp(key: string, now: int)

  datatype Limits = Limits(maxEntries: int, maxBytes: int)

  function Step(items: seq<Item>, op: Op, limits: Limits): seq<Item> {
    match op
    case PutOp(item) => AfterPut(items, item, limits.maxEntries, limits.maxBytes)
    case GetOp(key, now) => Got(items, key, now).0
  }

  function Run(ops: seq<Op>, limits: Limits): seq<Item> {
    if ops == [] then [] else Step(Run(ops[..|ops| - 1], limits), ops[|ops| - 1], limits)
  }

  /** The last item put for `key`. */
  function LastPut(ops: seq<Op>, key: string): Option<Item> {
    if ops == [] then None
    else
      var op := ops[|ops| - 1];
      if op.PutOp? && op.item.key == key then Some(op.item) else LastPut(ops[..|ops| - 1], key)
  }

  /** Every item is the last one put for its key. */
  ghost predicate Current(items: seq<Item>, ops: seq<Op>) {
    forall i | 0 <= i < |items| :: LastPut(ops, items[i].key) == Some(items[i])
  }

  lemma WithoutItems(items: seq<Item>, n: nat)
    requires n < |items| && Distinct(items)
    ensures var rest := Without(items, n);
            && Distinct(rest)
            && forall i | 0 <= i < |rest| :: rest[i] in items && rest[i].key != items[n].key
  {
    var rest := Without(items, n);
    forall i | 0 <= i < |rest| ensures rest[i] == items[if i < n then i else i + 1] {
    }
  }

  lemma OthersItems(items: seq<Item>, key: string)
    requires Distinct(items)
    ensures var rest := Others(items, key);
            Distinct(rest) && forall i | 0 <= i < |rest| :: rest[i] in items && rest[i].key != key
  {
    var n := Find(items, key);
    if n < |items| {
      WithoutItems(items, n);
    }
  }

  lemma OthersAt(items: seq<Item>, key: string, i: nat)
    requires i < |Others(items, key)|
    ensures var j := if i < Find(items, key) then i else i + 1;
            j < |items| && Others(items, key)[i] == items[j]
  {
  }

  lemma FrontedItems(items: seq<Item>, item: Item)
    requires Distinct(items)
    ensures var all := Fronted(items, item);
            && Distinct(all)
            && all[0] == item
            && forall i | 1 <= i < |all| :: all[i] in items && all[i].key != item.key
  {
    OthersItems(items, item.key);
    var all, rest := Fronted(items, item), Others(items, item.key);
    assert forall i | 1 <= i < |all| :: all[i] == rest[i - 1];
  }

  lemma GotItems(items: seq<Item>, key: string, now: int)
    requires Distinct(items)
    ensures var after := Got(items, key, now).0;
            Distinct(after) && forall i | 0 <= i < |after| :: after[i] in items
  {
  }

  lemma {:induction false} RunDistinct(ops: seq<Op>, limits: Limits)
    ensures Distinct(Run(ops, limits))
  {
    if ops != [] {
      var before, op := ops[..|ops| - 1], ops[|ops| - 1];
      RunDistinct(before, limits);
      match op
      case PutOp(item) =>
        FrontedItems(Run(before, limits), item);
        EvictedIsLongest(Fronted(Run(before, limits), item), limits.maxEntries, limits.maxBytes);
      case GetOp(key, now) =>
        GotItems(Run(before, limits), key, now);
    }
  }

  lemma {:induction false} RunCurrent(ops: seq<Op>, limits: Limits)
    ensures Current(Run(ops, limits), ops)
  {
    if ops != [] {
      var before, op := ops[..|ops| - 1], ops[|ops| - 1];
      var items, after := Run(before, limits), Run(ops, limits);
      RunDistinct(before, limits);
      RunCurrent(before, limits);
      if op.PutOp? {
        FrontedItems(items, op.item);
        EvictedIsLongest(Fronted(items, op.item), limits.maxEntries, limits.maxBytes);
      } else {
        GotItems(items, op.key, op.now);
      }
      forall i | 0 <= i < |after| ensures LastPut(ops, after[i].key) == Some(after[i]) {
        if op.PutOp? {
          assert after[i] == Fronted(items, op.item)[i];
        }
        if op.GetOp? || i > 0 {
          assert after[i] in items;
          assert LastPut(before, after[i].key) == Some(after[i]);
        }
      }
    }
  }

  lemma TotalWithoutOne(items: seq<Item>, n: nat)
    requires n < |items|
    ensures Total(Without(items, n)) == Total(items) - items[n].size
  {
    TotalSplit(items, n);
    TotalSplit(Without(items, n), n);
    assert Without(items, n)[..n] == items[..n] && Without(items, n)[n..] == items[n + 1..];
    assert items[n..] == [items[n]] + items[n + 1..];
  }

  lemma GotFits(items: seq<Item>, key: string, now: int, limits: Limits)
    requires items == [] || Fits(items, limits.maxEntries, limits.maxBytes)
    ensures var after := Got(items, key, now).0; after == [] || Fits(after, limits.maxEntries, limits.maxBytes)
  {
    var n := Find(items, key);
    if n < |items| {
      TotalWithoutOne(items, n);
      assert ([items[n]] + Without(items, n))[1..] == Without(items, n);
    }
  }

  /** After every run the cache is within both limits, or empty. */
  lemma {:induction false} RunFits(ops: seq<Op>, limits: Limits)
    ensures Run(ops, limits) == [] || Fits(Run(ops, limits), limits.maxEntries, limits.maxBytes)
  {
    if ops != [] {
      var before, op := ops[..|ops| - 1], ops[|ops| - 1];
      RunFits(before, limits);
      match op
      case PutOp(item) =>
        EvictedIsLongest(Fronted(Run(before, limits), item), limits.maxEntries, limits.maxBytes);
      case GetOp(key, now) => GotFits(Run(before, limits), key, now, limits);
    }
  }

  /** The bytes of the first `n` items. */
  function BytesOf(items: seq<Item>, n: nat): nat
    requires n <= |items|
  {
    if n == 0 then 0 else BytesOf(items, n - 1) + items[n - 1].size
  }

  lemma {:induction false} BytesAreTotal(items: seq<Item>, n: nat)
    requires n <= |items|
    ensures BytesOf(items, n) == Total(items[..n])
  {
    if n > 0 {
      BytesAreTotal(items, n - 1);
      TotalSplit(items[..n], n - 1);
      assert items[..n][..n - 1] == items[..n - 1] && items[..n][n - 1..] == [items[n - 1]];
      assert [items[n - 1]][1..] == [];
    } else {
      assert items[..0] == [];
    }
  }

  /** That is: no more entries and no more bytes than the limits say. */
  lemma RunWithinLimits(ops: seq<Op>, limits: Limits)
    ensures var items := Run(ops, limits);
            items == [] || (|items| <= limits.maxEntries && BytesOf(items, |items|) <= limits.maxBytes)
  {
    var items := Run(ops, limits);
    RunFits(ops, limits);
    BytesAreTotal(items, |items|);
    assert items[..|items|] == items;
  }

  /** An item that fits on its own is held after it was put, in front. */
  lemma PutIsHeld(ops: seq<Op>, item: Item, limits: Limits)
    requires 1 <= limits.maxEntries && item.size <= limits.maxBytes
    ensures var items := Run(ops + [PutOp(item)], limits); items != [] && items[0] == item
  {
    var all := Fronted(Run(ops, limits), item);
    assert (ops + [PutOp(item)])[..|ops|] == ops;
    EvictedIsLongest(all, limits.maxEntries, limits.maxBytes);
    assert all[..1] == [item] && [item][1..] == [];
    assert Fits(all[..1], limits.maxEntries, limits.maxBytes);
  }

  predicate Holds(items: seq<Item>, key: string) {
    exists i :: 0 <= i < |items| && items[i].key == key
  }

  /** In every run a get hits exactly if the key is still held and its deadline has
      not passed, the one it was last put with; and then it returns the value that
      was put last. */
  lemma HitIsLastPut(ops: seq<Op>, key: string, now: int, limits: Limits)
    ensures Holds(Run(ops, limits), key) ==> LastPut(ops, key).Some?
    ensures var hit := Got(Run(ops, limits), key, now).1;
            && (hit.Some? <==> Holds(Run(ops, limits), key) && now <= LastPut(ops, key).value.deadline)
            && (hit.Some? ==> hit.value == LastPut(ops, key).value.value)
  {
    RunCurrent(ops, limits);
    RunDistinct(ops, limits);
  }

  // ------------------------------------------------------------------ recency

  function KeyOf(op: Op): string {
    match op
    case PutOp(item) => item.key
    case GetOp(key, _) => key
  }

  /** When the key was last put or asked for, counted from 1; 0 if never. */
  function LastUse(ops: seq<Op>, key: string): nat {
    if ops == [] then 0
    else if KeyOf(ops[|ops| - 1]) == key then |ops|
    else LastUse(ops[..|ops| - 1], key)
  }

  /** What is nearer to the front was used later. */
  predicate ByRecency(items: seq<Item>, ops: seq<Op>) {
    forall i, j | 0 <= i < j < |items| :: LastUse(ops, items[i].key) > LastUse(ops, items[j].key)
  }

  lemma {:induction false} LastUseBound(ops: seq<Op>, key: string)
    ensures LastUse(ops, key) <= |ops|
  {
    if ops != [] {
      LastUseBound(ops[..|ops| - 1], key);
    }
  }

  lemma LastUseNext(ops: seq<Op>, op: Op, key: string)
    requires key != KeyOf(op)
    ensures LastUse(ops + [op], key) == LastUse(ops, key) <= |ops|
  {
    assert (ops + [op])[..|ops|] == ops;
    LastUseBound(ops, key);
  }

  lemma OthersByRecency(items: seq<Item>, ops: seq<Op>, key: string)
    requires ByRecency(items, ops)
    ensures ByRecency(Others(items, key), ops)
  {
    var rest := Others(items, key);
    forall i, j | 0 <= i < j < |rest| ensures LastUse(ops, rest[i].key) > LastUse(ops, rest[j].key) {
      OthersAt(items, key, i);
      OthersAt(items, key, j);
    }
  }

  lemma RestByRecency(items: seq<Item>, ops: seq<Op>, op: Op)
    requires ByRecency(items, ops) && Distinct(items)
    ensures var rest := Others(items, KeyOf(op));
            && ByRecency(rest, ops + [op])
            && forall i | 0 <= i < |rest| :: rest[i].key != KeyOf(op) && LastUse(ops + [op], rest[i].key) <= |ops|
  {
    var rest := Others(items, KeyOf(op));
    OthersItems(items, KeyOf(op));
    OthersByRecency(items, ops, KeyOf(op));
    forall i | 0 <= i < |rest| ensures LastUse(ops + [op], rest[i].key) == LastUse(ops, rest[i].key) <= |ops| {
      LastUseNext(ops, op, rest[i].key);
    }
  }

  /** The items of the other keys, after the used one or without it, or a prefix of
      that. */
  lemma UsedByRecency(items: seq<Item>, ops: seq<Op>, op: Op, after: seq<Item>)
    requires ByRecency(items, ops) && Distinct(items)
    requires var rest := Others(items, KeyOf(op));
             after <= rest || (after != [] && after[0].key == KeyOf(op) && after[1..] <= rest)
    ensures ByRecency(after, ops + [op])
  {
    var rest := Others(items, KeyOf(op));
    RestByRecency(items, ops, op);
    forall i, j | 0 <= i < j < |after| ensures LastUse(ops + [op], after[i].key) > LastUse(ops + [op], after[j].key) {
      if !(after <= rest) {
        assert after[j] == after[1..][j - 1] == rest[j - 1];
        assert i > 0 ==> after[i] == after[1..][i - 1] == rest[i - 1];
      }
    }
  }

  lemma GotOthers(items: seq<Item>, key: string, now: int)
    ensures var after, rest := Got(items, key, now).0, Others(items, key);
            after == rest || (after != [] && after[0].key == key && after[1..] == rest)
  {
  }

  lemma PutOthers(items: seq<Item>, item: Item, maxEntries: int, maxBytes: int)
    ensures var after, rest := AfterPut(items, item, maxEntries, maxBytes), Others(items, item.key);
            after == [] || (after[0].key == item.key && after[1..] <= rest)
  {
    EvictedIsLongest(Fronted(items, item), maxEntries, maxBytes);
    assert Fronted(items, item)[1..] == Others(items, item.key);
  }

  lemma StepByRecency(items: seq<Item>, ops: seq<Op>, op: Op, limits: Limits)
    requires ByRecency(items, ops) && Distinct(items)
    ensures ByRecency(Step(items, op, limits), ops + [op])
  {
    match op {
      case PutOp(item) => PutOthers(items, item, limits.maxEntries, limits.maxBytes);
      case GetOp(key, now) => GotOthers(items, key, now);
    }
    UsedByRecency(items, ops, op, Step(items, op, limits));
  }

  predicate RunOrdered(ops: seq<Op>, limits: Limits) {
    ByRecency(Run(ops, limits), ops)
  }

  lemma NextOrdered(ops: seq<Op>, op: Op, limits: Limits)
    requires RunOrdered(ops, limits)
    ensures RunOrdered(ops + [op], limits)
  {
    RunDistinct(ops, limits);
    StepByRecency(Run(ops, limits), ops, op, limits);
    assert (ops + [op])[..|ops|] == ops;
  }

  lemma {:induction false} RunsAreOrdered(ops: seq<Op>, limits: Limits)
    ensures RunOrdered(ops, limits)
  {
    if ops != [] {
      var before, op := ops[..|ops| - 1], ops[|ops| - 1];
      assert before + [op] == ops;
      RunsAreOrdered(before, limits);
      NextOrdered(before, op, limits);
    }
  }

  /** After every run the list is in the order of last use: so what an eviction drops
      is what has not been used for longest. */
  lemma RunByRecency(ops: seq<Op>, limits: Limits)
    ensures ByRecency(Run(ops, limits), ops)
  {
    RunsAreOrdered(ops, limits);
  }

  // ------------------------------------------------------------- the classes

  class CacheEntry {
    const key: string
    var result: ActionResult
    var expireAt: int
    var sizeBytes: nat

    constructor (key: string, result: ActionResult, expireAt: int, sizeBytes: nat)
      ensures View() == Item(key, result, expireAt, sizeBytes)
    {
      this.key, this.result, this.expireAt, this.sizeBytes := key, result, expireAt, sizeBytes;
    }

    function View(): Item
      reads this
    {
      Item(key, result, expireAt, sizeBytes)
    }
  }

  function Views(order: seq<CacheEntry>): (r: seq<Item>)
    reads order
    ensures |r| == |order|
    ensures forall i | 0 <= i < |r| :: r[i] == order[i].View()
  {
    seq(|order|, i requires 0 <= i < |order| reads order => order[i].View())
  }

  function Dropped<T>(list: seq<T>, n: nat): seq<T>
    requires n < |list|
  {
    list[..n] + list[n + 1..]
  }

  lemma ViewsDropped(order: seq<CacheEntry>, n: nat)
    requires n < |order|
    ensures Views(Dropped(order, n)) == Without(Views(order), n)
    ensures Total(Views(Dropped(order, n))) == Total(Views(order)) - order[n].sizeBytes
  {
    TotalWithoutOne(Views(order), n);
  }

  predicate KeysDistinct(order: seq<CacheEntry>) {
    forall i, j | 0 <= i < j < |order| :: order[i].key != order[j].key
  }

  /** The listed entries under their keys, and nothing else. */
  function Index(order: seq<CacheEntry>): map<string, CacheEntry> {
    if order == [] then map[] else Index(order[1..])[order[0].key := order[0]]
  }

  /** Every listed entry is one of the cache's own. */
  ghost predicate Within(order: seq<CacheEntry>, repr: set<CacheEntry>) {
    forall i | 0 <= i < |order| :: order[i] in repr
  }

  /** The place of an entry in the list, as its list element knows it. */
  function IndexIn(order: seq<CacheEntry>, e: CacheEntry): (n: nat)
    requires e in order
    ensures n < |order| && order[n] == e
  {
    if order[0] == e then 0 else 1 + IndexIn(order[1..], e)
  }

  lemma {:induction false} IndexHolds(order: seq<CacheEntry>, n: nat)
    requires KeysDistinct(order) && n < |order|
    ensures order[n].key in Index(order) && Index(order)[order[n].key] == order[n]
    ensures Find(Views(order), order[n].key) == n && IndexIn(order, order[n]) == n
  {
    if n > 0 {
      IndexHolds(order[1..], n - 1);
      assert Views(order)[1..] == Views(order[1..]);
    }
  }

  lemma {:induction false} IndexOnly(order: seq<CacheEntry>, key: string)
    ensures key in Index(order) ==> exists n :: 0 <= n < |order| && order[n] == Index(order)[key] && order[n].key == key
    ensures key !in Index(order) ==> Find(Views(order), key) == |order|
  {
    if order != [] {
      IndexOnly(order[1..], key);
      assert Views(order)[1..] == Views(order[1..]);
      if key in Index(order) && key != order[0].key {
        var m :| 0 <= m < |order[1..]| && order[1..][m] == Index(order[1..])[key] && order[1..][m].key == key;
        assert order[m + 1] == Index(order)[key];
      }
    }
  }

  lemma DroppedDistinct(order: seq<CacheEntry>, n: nat)
    requires KeysDistinct(order) && n < |order|
    ensures KeysDistinct(Dropped(order, n))
  {
  }

  lemma RemoveAdded(index: map<string, CacheEntry>, key: string, e: CacheEntry)
    requires key !in index
    ensures index[key := e] - {key} == index
  {
  }

  lemma RemoveOther(index: map<string, CacheEntry>, key: string, other: string, e: CacheEntry)
    requires key != other
    ensures (index - {other})[key := e] == index[key := e] - {other}
  {
  }

  lemma {:induction false} IndexDropped(order: seq<CacheEntry>, n: nat)
    requires KeysDistinct(order) && n < |order|
    ensures Index(Dropped(order, n)) == Index(order) - {order[n].key}
  {
    if n == 0 {
      assert Dropped(order, n) == order[1..];
      IndexOnly(order[1..], order[0].key);
      RemoveAdded(Index(order[1..]), order[0].key, order[0]);
    } else {
      IndexDropped(order[1..], n - 1);
      assert Dropped(order, n)[1..] == Dropped(order[1..], n - 1);
      RemoveOther(Index(order[1..]), order[0].key, order[n].key, order[0]);
    }
  }

  lemma ViewsPushed(order: seq<CacheEntry>, e: CacheEntry)
    ensures Views([e] + order) == [e.View()] + Views(order)
    ensures Total(Views([e] + order)) == e.sizeBytes + Total(Views(order))
  {
    var more := [e.View()] + Views(order);
    assert more[1..] == Views(order);
    assert Views([e] + order) == more;
  }

  lemma DistinctPushed(order: seq<CacheEntry>, e: CacheEntry)
    requires KeysDistinct(order) && forall i | 0 <= i < |order| :: order[i].key != e.key
    ensures KeysDistinct([e] + order)
  {
  }

  lemma Pushed(order: seq<CacheEntry>, e: CacheEntry)
    requires KeysDistinct(order) && e.key !in Index(order)
    ensures KeysDistinct([e] + order)
    ensures Index([e] + order) == Index(order)[e.key := e]
    ensures Views([e] + order) == [e.View()] + Views(order)
    ensures Total(Views([e] + order)) == e.sizeBytes + Total(Views(order))
  {
    forall i | 0 <= i < |order| ensures order[i].key != e.key {
      IndexHolds(order, i);
    }
    DistinctPushed(order, e);
    assert ([e] + order)[1..] == order;
    ViewsPushed(order, e);
  }

  lemma Restored(index: map<string, CacheEntry>, key: string)
    requires key in index
    ensures (index - {key})[key := index[key]] == index
  {
  }

  lemma PutBack(index: map<string, CacheEntry>, rest: seq<CacheEntry>, e: CacheEntry)
    requires KeysDistinct(rest) && e.key in index && index[e.key] == e && Index(rest) == index - {e.key}
    ensures KeysDistinct([e] + rest) && Index([e] + rest) == index
    ensures Views([e] + rest) == [e.View()] + Views(rest) && Total(Views([e] + rest)) == e.sizeBytes + Total(Views(rest))
  {
    Pushed(rest, e);
    Restored(index, e.key);
  }

  /** Taking an entry to the front changes neither the map nor the total. */
  lemma Moved(order: seq<CacheEntry>, n: nat)
    requires KeysDistinct(order) && n < |order|
    ensures var moved := [order[n]] + Dropped(order, n);
            && KeysDistinct(moved)
            && Index(moved) == Index(order)
            && Views(moved) == [order[n].View()] + Without(Views(order), n)
            && Total(Views(moved)) == Total(Views(order))
  {
    IndexHolds(order, n);
    IndexDropped(order, n);
    DroppedDistinct(order, n);
    ViewsDropped(order, n);
    PutBack(Index(order), Dropped(order, n), order[n]);
  }

  lemma ViewsFront(order: seq<CacheEntry>, n: nat)
    requires n <= |order|
    ensures Views(order[..n]) == Views(order)[..n]
  {
  }

  lemma DroppedLast<T>(list: seq<T>)
    requires list != []
    ensures Dropped(list, |list| - 1) == list[..|list| - 1]
  {
  }

  lemma BackDropped(order: seq<CacheEntry>)
    requires KeysDistinct(order) && order != []
    ensures var n := |order| - 1; IndexIn(order, order[n]) == n
    ensures Dropped(order, |order| - 1) == order[..|order| - 1]
    ensures Views(order[..|order| - 1]) == Views(order)[..|order| - 1]
  {
    IndexHolds(order, |order| - 1);
    DroppedLast(order);
    ViewsFront(order, |order| - 1);
  }

  /** What the map says about a key, in terms of the list. */
  lemma Lookup(order: seq<CacheEntry>, key: string)
    requires KeysDistinct(order)
    ensures if key in Index(order)
            then Index(order)[key] in order && Index(order)[key].key == key &&
                 Find(Views(order), key) == IndexIn(order, Index(order)[key])
            else Find(Views(order), key) == |order|
  {
    IndexOnly(order, key);
    if key in Index(order) {
      var n :| 0 <= n < |order| && order[n] == Index(order)[key] && order[n].key == key;
      IndexHolds(order, n);
    }
  }

  /** What the class keeps when the `n`-th element leaves the list. */
  lemma WithoutElement(order: seq<CacheEntry>, n: nat, repr: set<CacheEntry>)
    requires KeysDistinct(order) && n < |order| && Within(order, repr)
    ensures var rest := Dropped(order, n);
            && KeysDistinct(rest) && Within(rest, repr)
            && Index(rest) == Index(order) - {order[n].key}
            && Total(Views(rest)) == Total(Views(order)) - order[n].sizeBytes
  {
    IndexDropped(order, n);
    DroppedDistinct(order, n);
    ViewsDropped(order, n);
  }

  lemma OthersKept(rest: seq<CacheEntry>, elem: CacheEntry, others: seq<Item>)
    requires |others| == |rest| && forall i | 0 <= i < |rest| :: rest[i].View() == others[i]
    ensures Views(rest) == others
  {
  }

  class LruTtlCache {
    var entries: map<string, CacheEntry>
    var order: seq<CacheEntry>
    const maxEntries: int
    const maxBytes: int
    var curBytes: int
    ghost var repr: set<CacheEntry>

    constructor (maxEntries: int, maxBytes: int)
      ensures Valid() && order == [] && repr == {}
      ensures this.maxEntries == maxEntries && this.maxBytes == if maxBytes <= 0 then 64 * 1024 * 1024 else maxBytes
    {
      entries, order, curBytes, repr := map[], [], 0, {};
      this.maxEntries := maxEntries;
      this.maxBytes := if maxBytes <= 0 then 64 * 1024 * 1024 else maxBytes;
    }

    function Items(): seq<Item>
      reads this, order
    {
      Views(order)
    }

    /** Map and list agree, and the byte counter is the sum of the sizes. */
    ghost predicate Valid()
      reads this, order
    {
      KeysDistinct(order) && entries == Index(order) && curBytes == Total(Items()) && Within(order, repr)
    }

    method RemoveElement(elem: CacheEntry)
      requires Valid() && elem in order
      modifies this
      ensures Valid() && repr == old(repr)
      ensures order == old(Dropped(order, IndexIn(order, elem)))
    {
      var n := IndexIn(order, elem);
      WithoutElement(order, n, repr);
      order := Dropped(order, n);
      entries := entries - {elem.key};
      curBytes := curBytes - elem.sizeBytes;
    }

    method MoveToFront(elem: CacheEntry)
      requires Valid() && elem in order
      modifies this
      ensures Valid() && repr == old(repr)
      ensures order == old([elem] + Dropped(order, IndexIn(order, elem)))
      ensures var n := old(IndexIn(order, elem));
              n < |old(Items())| && Items() == [old(Items())[n]] + Without(old(Items()), n)
    {
      var n := IndexIn(order, elem);
      Moved(order, n);
      order := [elem] + Dropped(order, n);
    }

    method Evict()
      requires Valid()
      modifies this
      ensures Valid() && repr == old(repr)
      ensures Items() == Evicted(old(Items()), maxEntries, maxBytes)
      ensures order <= old(order)
    {
      while |order| > maxEntries || curBytes > maxBytes
        invariant Valid() && order <= old(order) && repr == old(repr)
        invariant Evicted(Items(), maxEntries, maxBytes) == Evicted(old(Items()), maxEntries, maxBytes)
        decreases |order|
      {
        if |order| == 0 {
          break;
        }
        EvictBack();
      }
    }

    method EvictBack()
      requires Valid() && order != []
      modifies this
      ensures Valid() && repr == old(repr)
      ensures order == old(order)[..|old(order)| - 1]
      ensures Items() == old(Items())[..|old(Items())| - 1]
    {
      BackDropped(order);
      RemoveElement(order[|order| - 1]);
    }

    method Get(key: string, now: int) returns (result: Option<ActionResult>)
      requires Valid()
      modifies this
      ensures Valid() && repr == old(repr)
      ensures (Items(), result) == Got(old(Items()), key, now)
    {
      Lookup(order, key);
      if key !in entries {
        return None;
      }
      var elem := entries[key];
      ghost var n := IndexIn(order, elem);
      ghost var items := Items();
      if now > elem.expireAt {
        ViewsDropped(order, n);
        RemoveElement(elem);
        assert Items() == Without(items, n);
        return None;
      }
      MoveToFront(elem);
      return Some(elem.result);
    }

    /** The item is at the front now, new or with its new value. */
    method PutFront(key: string, result: ActionResult, expireAt: int, size: nat)
      requires Valid()
      modifies this, repr
      ensures Valid() && fresh(repr - old(repr))
      ensures Items() == Fronted(old(Items()), Item(key, result, expireAt, size))
    {
      Lookup(order, key);
      if key in entries {
        assert entries[key] in repr;
        UpdateExisting(entries[key], result, expireAt, size);
      } else {
        InsertNew(key, result, expireAt, size);
      }
    }

    /** `size` is the estimated size of the result. */
    method Put(key: string, result: ActionResult, now: int, ttl: int, size: nat)
      requires Valid()
      modifies this, repr
      ensures Valid() && fresh(repr - old(repr))
      ensures Items() == AfterPut(old(Items()), Item(key, result, now + ttl, size), maxEntries, maxBytes)
    {
      PutFront(key, result, now + ttl, size);
      Evict();
    }

    method InsertNew(key: string, result: ActionResult, expireAt: int, size: nat)
      requires Valid() && key !in entries
      modifies this
      ensures Valid() && fresh(repr - old(repr))
      ensures Items() == [Item(key, result, expireAt, size)] + old(Items())
    {
      var elem := new CacheEntry(key, result, expireAt, size);
      PushFront(elem);
    }

    method PushFront(elem: CacheEntry)
      requires Valid() && elem.key !in entries
      modifies this
      ensures Valid() && repr == old(repr) + {elem}
      ensures Items() == [elem.View()] + old(Items())
    {
      Pushed(order, elem);
      order := [elem] + order;
      repr := repr + {elem};
      entries := entries[elem.key := elem];
      curBytes := curBytes + elem.sizeBytes;
    }

    method UpdateExisting(elem: CacheEntry, result: ActionResult, expireAt: int, size: nat)
      requires Valid() && elem in order
      modifies this, elem
      ensures Valid() && repr == old(repr)
      ensures Items() == [Item(elem.key, result, expireAt, size)] + Without(old(Items()), old(IndexIn(order, elem)))
    {
      MoveToFront(elem);
      UpdateFront(elem, result, expireAt, size);
    }

    method UpdateFront(elem: CacheEntry, result: ActionResult, expireAt: int, size: nat)
      requires Valid() && order != [] && order[0] == elem
      modifies this`curBytes, elem
      ensures Valid()
      ensures Items() == [Item(elem.key, result, expireAt, size)] + old(Items())[1..]
    {
      ghost var rest := order[1..];
      ghost var others := Views(rest);
      assert others == Items()[1..];
      curBytes := curBytes - elem.sizeBytes;
      elem.result := result;
      elem.expireAt := expireAt;
      elem.sizeBytes := size;
      curBytes := curBytes + size;
      OthersKept(rest, elem, others);
      assert Items()[1..] == others;
    }
  }

  // ---------------------------------------------------------- the executor

  /** What the wrapped executor returns: an error, or a result that may be nil. */
  datatype Outcome = Failed(error: string) | Returned(result: Option<ActionResult>)

  ghost predicate OnlySuccesses(items: seq<Item>) {
    forall i | 0 <= i < |items| :: items[i].value.ok
  }

  lemma GotSuccesses(items: seq<Item>, key: string, now: int)
    requires OnlySuccesses(items)
    ensures OnlySuccesses(Got(items, key, now).0)
  {
    var after, n := Got(items, key, now).0, Find(items, key);
    forall i | 0 <= i < |after| ensures after[i].value.ok {
      assert after[i] == items[i] || (i > 0 && after[i] == items[i - 1]) || (i + 1 < |items| && after[i] == items[i + 1])
          || (n < |items| && after[i] == items[n]);
    }
  }

  lemma PutSuccesses(items: seq<Item>, item: Item, maxEntries: int, maxBytes: int)
    requires OnlySuccesses(items) && item.value.ok
    ensures OnlySuccesses(AfterPut(items, item, maxEntries, maxBytes))
  {
    var all, after := Fronted(items, item), AfterPut(items, item, maxEntries, maxBytes);
    EvictedIsLongest(all, maxEntries, maxBytes);
    forall i | 0 <= i < |after| ensures after[i].value.ok {
      assert after[i] == all[i];
      if i > 0 {
        assert all[i] == items[i - 1] || (i < |items| && all[i] == items[i]);
      }
    }
  }

  /** One call through the cache: the cache after it, what the caller gets, and
      whether the wrapped executor was called. */
  function Executed(items: seq<Item>, key: string, now: int, ttl: int, inner: Outcome, size: nat, limits: Limits)
    : (seq<Item>, Outcome, bool)
  {
    var (after, hit) := Got(items, key, now);
    if hit.Some? then (after, Returned(hit), false)
    else if inner.Returned? && inner.result.Some? && inner.result.value.ok then
      var item := Item(key, inner.result.value, now + ttl, size);
      (AfterPut(after, item, limits.maxEntries, limits.maxBytes), inner, true)
    else (after, inner, true)
  }

  /** Only successful results are ever kept. */
  lemma ExecutedSuccesses(items: seq<Item>, key: string, now: int, ttl: int, inner: Outcome, size: nat, limits: Limits)
    requires OnlySuccesses(items)
    ensures OnlySuccesses(Executed(items, key, now, ttl, inner, size, limits).0)
  {
    GotSuccesses(items, key, now);
    if inner.Returned? && inner.result.Some? && inner.result.value.ok {
      var item := Item(key, inner.result.value, now + ttl, size);
      PutSuccesses(Got(items, key, now).0, item, limits.maxEntries, limits.maxBytes);
    }
  }

  /** A success whose size is within the limits is served until its deadline: a second
      call is answered with it and not passed on. */
  lemma ServedAgain(items: seq<Item>, key: string, now: int, ttl: int, value: ActionResult, size: nat, limits: Limits,
                    later: int, other: Outcome, otherSize: nat)
    requires Got(items, key, now).1.None? && value.ok && later <= now + ttl
    requires 1 <= limits.maxEntries && size <= limits.maxBytes
    ensures var (after, outcome, called) := Executed(items, key, now, ttl, Returned(Some(value)), size, limits);
            && called && outcome == Returned(Some(value))
            && Executed(after, key, later, ttl, other, otherSize, limits).1 == Returned(Some(value))
            && !Executed(after, key, later, ttl, other, otherSize, limits).2
  {
    var item := Item(key, value, now + ttl, size);
    var all := Fronted(Got(items, key, now).0, item);
    EvictedIsLongest(all, limits.maxEntries, limits.maxBytes);
    assert all[..1] == [item] && [item][1..] == [];
    assert Fits(all[..1], limits.maxEntries, limits.maxBytes);
  }

  /** A call without a hit is passed on, and what comes back is returned; a failure, a
      nil result or an error leaves the cache as the lookup did. */
  lemma PassedOn(items: seq<Item>, key: string, now: int, ttl: int, inner: Outcome, size: nat, limits: Limits)
    requires Got(items, key, now).1.None?
    ensures var (after, outcome, called) := Executed(items, key, now, ttl, inner, size, limits);
            && called && outcome == inner
            && (inner.Failed? || inner.result.None? || !inner.result.value.ok ==> after == Got(items, key, now).0)
  {
  }

  class CachedExecutor {
    const cache: LruTtlCache
    const ttl: int

    constructor (ttl: int, maxEntries: int, maxBytes: int, defaultTtl: int)
      ensures fresh(cache) && cache.Valid() && cache.order == [] && cache.repr == {}
      ensures cache.maxEntries == if maxEntries <= 0 then 256 else maxEntries
      ensures this.ttl == if ttl > 0 then ttl else if defaultTtl <= 0 then 300 else defaultTtl
    {
      cache := new LruTtlCache(if maxEntries <= 0 then 256 else maxEntries, maxBytes);
      this.ttl := if ttl > 0 then ttl else if defaultTtl <= 0 then 300 else defaultTtl;
    }

    /** `key` is the digest of the action and its input, `inner` what the wrapped
        executor would return now, and `size` the estimated size of that result. */
    method Execute(key: string, now: int, inner: Outcome, size: nat) returns (outcome: Outcome, called: bool)
      requires cache.Valid()
      modifies cache, cache.repr
      ensures cache.Valid() && fresh(cache.repr - old(cache.repr))
      ensures (cache.Items(), outcome, called) ==
              Executed(old(cache.Items()), key, now, ttl, inner, size, Limits(cache.maxEntries, cache.maxBytes))
    {
      var cached := cache.Get(key, now);
      if cached.Some? {
        return Returned(cached), false;
      }
      Keep(key, now, inner, size);
      return inner, true;
    }

    /** Only a success is stored. */
    method Keep(key: string, now: int, inner: Outcome, size: nat)
      requires cache.Valid()
      modifies cache, cache.repr
      ensures cache.Valid() && fresh(cache.repr - old(cache.repr))
      ensures cache.Items() ==
              if inner.Returned? && inner.result.Some? && inner.result.value.ok
              then AfterPut(old(cache.Items()), Item(key, inner.result.value, now + ttl, size), cache.maxEntries, cache.maxBytes)
              else old(cache.Items())
    {
      if inner.Returned? && inner.result.Some? && inner.result.value.ok {
        cache.Put(key, inner.result.value, now, ttl, size);
      }
    }
  }
}
