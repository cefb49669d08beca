/** Finding the top-level collection in a HID report descriptor (hidpin/internal/hidraw/hidraw.go), on
    the item encoding of sections 6.2.2.2 and 6.2.2.3 of the USB HID 1.11 specification. */
module ReportDescriptor {
  import opened Protocol
  import W = StatusCodec

  const LONG_ITEM: byte := 0xFE
  const USAGE_PAGE: byte := 0x04
  const USAGE: byte := 0x08
  const COLLECTION: byte := 0xA0
  const INPUT: byte := 0x80
  const PUSH: byte := 0xA4
  const POP: byte := 0xB4
  const APPLICATION := 0x01

  // ---- bytes ----

  function DataSize(prefix: byte): nat {
    if prefix % 4 == 3 then 4 else prefix % 4
  }

  function Min(a: nat, b: nat): nat {
    if a < b then a else b
  }

  /** The data of the short item at i; bytes past the end count as 0. */
  function DataAt(d: seq<byte>, i: nat): nat
    requires i < |d|
  {
    W.LeValue(d[i + 1..Min(i + 1 + DataSize(d[i]), |d|)])
  }

  /** What the scan finds from offset i on with a page and a usage in force. */
  function Scan(d: seq<byte>, i: nat, page: u16, usage: u16): (u16, u16)
    decreases |d| - i
  {
    if i >= |d| then (0, 0)
    else if d[i] == LONG_ITEM then
      if i + 1 >= |d| then (0, 0) else Scan(d, i + 3 + d[i + 1], page, usage)
    else
      var kind, size, data, next := d[i] - d[i] % 4, DataSize(d[i]), DataAt(d, i), i + 1 + DataSize(d[i]);
      if kind == USAGE_PAGE then Scan(d, next, data % 0x1_0000, usage)
      else if kind == USAGE && size == 4 then Scan(d, next, data / 0x1_0000 % 0x1_0000, data % 0x1_0000)
      else if kind == USAGE then Scan(d, next, page, data % 0x1_0000)
      else if kind == COLLECTION && data == APPLICATION then (page, usage)
      else Scan(d, next, page, usage)
  }

  /** Reads up to size bytes as a little-endian number, as far as there are bytes. */
  method ReadData(d: seq<byte>, i: nat, size: nat) returns (data: nat)
    requires i < |d|
    ensures data == W.LeValue(d[i + 1..Min(i + 1 + size, |d|)])
  {
    var k: nat, weight: nat := 0, 1;
    data := 0;
    ghost var all := d[i + 1..Min(i + 1 + size, |d|)];
    while k < size && i + 1 + k < |d|
      invariant k <= |all| && weight == W.Pow256(k) && data == W.LeValue(all[..k])
      decreases size - k
    {
      LeSnoc(all[..k], all[k]);
      assert all[..k + 1] == all[..k] + [all[k]];
      data := data + weight * d[i + 1 + k];
      weight := weight * 0x100;
      k := k + 1;
    }
    assert all[..k] == all;
  }

  lemma {:induction false} LeSnoc(bs: seq<byte>, b: byte)
    ensures W.LeValue(bs + [b]) == W.LeValue(bs) + W.Pow256(|bs|) * b
  {
    if bs == [] {
      assert (bs + [b])[1..] == [];
    } else {
      LeSnoc(bs[1..], b);
      assert (bs + [b])[1..] == bs[1..] + [b];
      Distribute(W.LeValue(bs[1..]), W.Pow256(|bs| - 1), b);
    }
  }

  lemma Distribute(x: nat, y: nat, z: nat)
    ensures 0x100 * (x + y * z) == 0x100 * x + 0x100 * y * z
  {
  }

  /** How the first application collection is named, (0, 0) without one. Any bytes will do, also
      a descriptor that breaks off inside an item. */
  method TopLevelUsage(d: seq<byte>) returns (page: u16, usage: u16)
    ensures (page, usage) == Scan(d, 0, 0, 0)
  {
    var i := 0;
    page, usage := 0, 0;
    while i < |d|
      invariant Scan(d, i, page, usage) == Scan(d, 0, 0, 0)
      decreases |d| - i
    {
      var prefix := d[i];
      if prefix == LONG_ITEM {
        if i + 1 >= |d| {
          break;
        }
        i := i + 3 + d[i + 1];
        continue;
      }
      var size := DataSize(prefix);
      var data := ReadData(d, i, size);
      i := i + 1 + size;
      var kind := prefix - prefix % 4;
      if kind == USAGE_PAGE {
        page := data % 0x1_0000;
      } else if kind == USAGE {
        if size == 4 {
          page, usage := data / 0x1_0000 % 0x1_0000, data % 0x1_0000;
        } else {
          usage := data % 0x1_0000;
        }
      } else if kind == COLLECTION && data == APPLICATION {
        return;
      }
    }
    page, usage := 0, 0;
  }

  // ---- items ----

  /** A short item: its type and tag as they stand in the upper six bits of the prefix, and its data. A long
      item carries a tag and up to 255 bytes. */
  datatype Item = Short(kind: byte, data: seq<byte>) | Long(tag: byte, data: seq<byte>)

  predicate WellFormedItem(it: Item) {
    match it
    case Short(kind, data) =>
      kind % 4 == 0 && (|data| <= 2 || |data| == 4) && !(kind == 0xFC && |data| == 2)
    case Long(_, data) => |data| < 0x100
  }

  function SizeCode(data: seq<byte>): nat {
    if |data| == 4 then 3 else |data|
  }

  function EncodeItem(it: Item): seq<byte>
    requires WellFormedItem(it)
  {
    match it
    case Short(kind, data) => [kind + SizeCode(data)] + data
    case Long(tag, data) => [LONG_ITEM, |data|, tag] + data
  }

  ghost predicate WellFormedItems(items: seq<Item>) {
    forall k :: 0 <= k < |items| ==> WellFormedItem(items[k])
  }

  function Encode(items: seq<Item>): seq<byte>
    requires WellFormedItems(items)
  {
    if items == [] then [] else EncodeItem(items[0]) + Encode(items[1..])
  }

  function Value(it: Item): nat {
    W.LeValue(it.data)
  }

  predicate SetsPage(it: Item) {
    it.Short? && (it.kind == USAGE_PAGE || (it.kind == USAGE && |it.data| == 4))
  }

  predicate SetsUsage(it: Item) {
    it.Short? && it.kind == USAGE
  }

  predicate OpensApplication(it: Item) {
    it.Short? && it.kind == COLLECTION && Value(it) == APPLICATION
  }

  /** The page an item sets. A 4-byte usage brings one. */
  function PageSet(it: Item): u16
    requires SetsPage(it)
  {
    if it.kind == USAGE then Value(it) / 0x1_0000 % 0x1_0000 else Value(it) % 0x1_0000
  }

  /** The page in force after some items: the last one set. */
  function PageAfter(items: seq<Item>): u16 {
    if items == [] then 0
    else if SetsPage(items[|items| - 1]) then PageSet(items[|items| - 1])
    else PageAfter(items[..|items| - 1])
  }

  /** The usage in force after some items: the last one given. */
  function UsageAfter(items: seq<Item>): u16 {
    if items == [] then 0
    else if SetsUsage(items[|items| - 1]) then Value(items[|items| - 1]) % 0x1_0000
    else UsageAfter(items[..|items| - 1])
  }

  lemma InForceSnoc(items: seq<Item>, it: Item)
    ensures PageAfter(items + [it]) == if SetsPage(it) then PageSet(it) else PageAfter(items)
    ensures UsageAfter(items + [it]) == if SetsUsage(it) then Value(it) % 0x1_0000 else UsageAfter(items)
  {
    assert (items + [it])[..|items|] == items;
  }

  /** The item stands in d at offset i. */
  ghost predicate StandsAt(d: seq<byte>, i: nat, it: Item) {
    WellFormedItem(it) && i + |EncodeItem(it)| <= |d| && d[i..i + |EncodeItem(it)|] == EncodeItem(it)
  }

  /** The short item at i, as the scan reads it. */
  ghost predicate ReadsAs(d: seq<byte>, i: nat, it: Item) {
    && i < |d| && it.Short?
    && d[i] != LONG_ITEM && d[i] - d[i] % 4 == it.kind && DataSize(d[i]) == |it.data|
    && DataAt(d, i) == Value(it)
  }

  lemma LongScanned(d: seq<byte>, i: nat, it: Item, page: u16, usage: u16)
    requires StandsAt(d, i, it) && it.Long?
    ensures Scan(d, i, page, usage) == Scan(d, i + |EncodeItem(it)|, page, usage)
  {
    var bytes := d[i..i + |EncodeItem(it)|];
    assert d[i] == bytes[0] && d[i + 1] == bytes[1];
  }

  lemma ShortRead(d: seq<byte>, i: nat, it: Item)
    requires StandsAt(d, i, it) && it.Short?
    ensures ReadsAs(d, i, it)
  {
    var bytes := d[i..i + |EncodeItem(it)|];
    assert d[i] == bytes[0] == it.kind + SizeCode(it.data);
    assert d[i + 1..i + 1 + |it.data|] == bytes[1..] == it.data;
  }

  lemma ShortScanned(d: seq<byte>, i: nat, it: Item, page: u16, usage: u16)
    requires ReadsAs(d, i, it)
    ensures Scan(d, i, page, usage) ==
      if OpensApplication(it) then (page, usage)
      else Scan(d, i + 1 + |it.data|, if SetsPage(it) then PageSet(it) else page,
                if SetsUsage(it) then Value(it) % 0x1_0000 else usage)
  {
  }

  /** The scan from offset i, reached after some items. */
  function ScanAfter(d: seq<byte>, i: nat, done: seq<Item>): (u16, u16) {
    Scan(d, i, PageAfter(done), UsageAfter(done))
  }

  /** Scanning over one encoded item ends the scan or takes it to the next item. */
  lemma ItemScanned(d: seq<byte>, i: nat, it: Item, done: seq<Item>)
    requires StandsAt(d, i, it)
    ensures ScanAfter(d, i, done) ==
      if OpensApplication(it) then (PageAfter(done), UsageAfter(done))
      else ScanAfter(d, i + |EncodeItem(it)|, done + [it])
  {
    InForceSnoc(done, it);
    if it.Long? {
      LongScanned(d, i, it, PageAfter(done), UsageAfter(done));
    } else {
      ShortRead(d, i, it);
      ShortScanned(d, i, it, PageAfter(done), UsageAfter(done));
    }
  }

  /** The first application collection among some items, or their number. */
  function FirstApplication(items: seq<Item>): (k: nat)
    ensures k <= |items| && (k < |items| ==> OpensApplication(items[k]))
    ensures forall j :: 0 <= j < k ==> !OpensApplication(items[j])
  {
    if items == [] || OpensApplication(items[0]) then 0 else 1 + FirstApplication(items[1..])
  }

  /** What is in force at the first application collection of items that follow others. */
  function Found(done: seq<Item>, items: seq<Item>): (u16, u16) {
    var k := FirstApplication(items);
    if k < |items| then (PageAfter(done + items[..k]), UsageAfter(done + items[..k])) else (0, 0)
  }

  lemma FoundHere(done: seq<Item>, items: seq<Item>)
    requires items != [] && OpensApplication(items[0])
    ensures Found(done, items) == (PageAfter(done), UsageAfter(done))
  {
    assert done + items[..0] == done;
  }

  lemma FoundLater(done: seq<Item>, items: seq<Item>)
    requires items != [] && !OpensApplication(items[0])
    ensures Found(done, items) == Found(done + [items[0]], items[1..])
  {
    var k := FirstApplication(items[1..]);
    assert done + items[..k + 1] == done + [items[0]] + items[1..][..k];
  }

  /** One item: the scan stops at it, or what it finds later is what is found from here. */
  lemma ScanStep(done: seq<Item>, d: seq<byte>, i: nat, items: seq<Item>)
    requires items != [] && StandsAt(d, i, items[0])
    requires !OpensApplication(items[0]) ==>
      ScanAfter(d, i + |EncodeItem(items[0])|, done + [items[0]]) == Found(done + [items[0]], items[1..])
    ensures ScanAfter(d, i, done) == Found(done, items)
  {
    ItemScanned(d, i, items[0], done);
    if OpensApplication(items[0]) {
      FoundHere(done, items);
    } else {
      FoundLater(done, items);
    }
  }

  /** The items stand one after the other in d from offset i to its end. */
  ghost predicate Laid(d: seq<byte>, i: nat, items: seq<Item>)
    decreases |items|
  {
    if items == [] then i == |d|
    else StandsAt(d, i, items[0]) && Laid(d, i + |EncodeItem(items[0])|, items[1..])
  }

  lemma {:induction false} EncodingIsLaid(d: seq<byte>, i: nat, items: seq<Item>)
    requires WellFormedItems(items) && i <= |d| && d[i..] == Encode(items)
    ensures Laid(d, i, items)
    decreases |items|
  {
    if items != [] {
      Sliced(d, i, EncodeItem(items[0]), Encode(items[1..]));
      EncodingIsLaid(d, i + |EncodeItem(items[0])|, items[1..]);
    }
  }

  lemma Sliced(d: seq<byte>, i: nat, a: seq<byte>, b: seq<byte>)
    requires i <= |d| && d[i..] == a + b
    ensures i + |a| <= |d| && d[i..i + |a|] == a && d[i + |a|..] == b
  {
    assert |d| == i + |a| + |b|;
    assert d[i..i + |a|] == d[i..][..|a|] && d[i + |a|..] == d[i..][|a|..];
  }

  lemma ScanEnds(done: seq<Item>, d: seq<byte>)
    ensures ScanAfter(d, |d|, done) == Found(done, [])
  {
  }

  lemma {:induction false} ScanFollowsItems(done: seq<Item>, d: seq<byte>, i: nat, items: seq<Item>)
    requires Laid(d, i, items)
    ensures ScanAfter(d, i, done) == Found(done, items)
    decreases |items|
  {
    if items == [] {
      ScanEnds(done, d);
    } else {
      if !OpensApplication(items[0]) {
        ScanFollowsItems(done + [items[0]], d, i + |EncodeItem(items[0])|, items[1..]);
      }
      ScanStep(done, d, i, items);
    }
  }

  /** On the encoding of any items, the scan returns the page and usage in force at the first application
      collection, or (0, 0) when there is none. */
  lemma FirstApplicationFound(items: seq<Item>)
    requires WellFormedItems(items)
    ensures var k := FirstApplication(items);
      Scan(Encode(items), 0, 0, 0) ==
        if k < |items| then (PageAfter(items[..k]), UsageAfter(items[..k])) else (0, 0)
  {
    EncodingIsLaid(Encode(items), 0, items);
    ScanFollowsItems([], Encode(items), 0, items);
    assert [] + items[..FirstApplication(items)] == items[..FirstApplication(items)];
  }

  // ---- what the specification says ----

  /** A Main item (type bits 00), after which section 6.2.2.8 drops the local items given before. */
  predicate IsMain(it: Item) {
    it.Short? && it.kind / 4 % 4 == 0
  }

  predicate IsShort(it: Item, kind: byte) {
    it.Short? && it.kind == kind
  }

  /** A 4-byte usage, which names its own page. */
  predicate IsExtended(it: Item) {
    IsShort(it, USAGE) && |it.data| == 4
  }

  /** The item state table as far as it names collections, by the positions of the items that set it: the
      page is global, saved by Push and restored by Pop (section 6.2.2.7); the usage is local. */
  datatype Table = Table(page: Option<nat>, stack: seq<Option<nat>>, usage: Option<nat>)

  function Enter(t: Table, it: Item, i: nat): Table {
    if IsShort(it, USAGE_PAGE) then t.(page := Some(i))
    else if IsShort(it, PUSH) then t.(stack := t.stack + [t.page])
    else if IsShort(it, POP) && t.stack != [] then t.(page := t.stack[|t.stack| - 1], stack := t.stack[..|t.stack| - 1])
    else if IsShort(it, USAGE) then t.(usage := Some(i))
    else if IsMain(it) then t.(usage := None)
    else t
  }

  function TableAfter(items: seq<Item>): Table {
    if items == [] then Table(None, [], None)
    else Enter(TableAfter(items[..|items| - 1]), items[|items| - 1], |items| - 1)
  }

  /** The source is an item that sets what is asked for. */
  predicate ValidPage(items: seq<Item>, source: Option<nat>) {
    source.Some? ==> source.value < |items| && SetsPage(items[source.value])
  }

  predicate ValidUsage(items: seq<Item>, source: Option<nat>) {
    source.Some? ==> source.value < |items| && SetsUsage(items[source.value])
  }

  function PageFrom(items: seq<Item>, source: Option<nat>): u16
    requires ValidPage(items, source)
  {
    if source.None? then 0 else PageSet(items[source.value])
  }

  function UsageFrom(items: seq<Item>, source: Option<nat>): u16
    requires ValidUsage(items, source)
  {
    if source.None? then 0 else Value(items[source.value]) % 0x1_0000
  }

  /** The item that decides the page by the specification: an extended usage overrides the global page. */
  function PageSource(items: seq<Item>): (source: Option<nat>)
    ensures ValidPage(items, source)
  {
    TableIsValid(items);
    var t := TableAfter(items);
    if t.usage.Some? && IsExtended(items[t.usage.value]) then t.usage else t.page
  }

  function UsageSource(items: seq<Item>): (source: Option<nat>)
    ensures ValidUsage(items, source)
  {
    TableIsValid(items);
    TableAfter(items).usage
  }

  lemma {:induction false} TableIsValid(items: seq<Item>)
    ensures var t := TableAfter(items);
      && ValidPage(items, t.page) && ValidUsage(items, t.usage)
      && forall k :: 0 <= k < |t.stack| ==> ValidPage(items, t.stack[k])
  {
    if items != [] {
      TableIsValid(items[..|items| - 1]);
    }
  }

  /** The page and usage that the specification gives a collection after these items. It foresees one usage for
      a collection; of several the last is taken. */
  function Named(items: seq<Item>): (u16, u16) {
    (PageFrom(items, PageSource(items)), UsageFrom(items, UsageSource(items)))
  }

  // ---- exactly when the scan meets it ----

  /** The item that decides the page of the scan: the last one that sets any. */
  function LastPage(items: seq<Item>): (source: Option<nat>)
    ensures ValidPage(items, source)
  {
    if items == [] then None
    else if SetsPage(items[|items| - 1]) then Some(|items| - 1)
    else LastPage(items[..|items| - 1])
  }

  function LastUsage(items: seq<Item>): (source: Option<nat>)
    ensures ValidUsage(items, source)
  {
    if items == [] then None
    else if SetsUsage(items[|items| - 1]) then Some(|items| - 1)
    else LastUsage(items[..|items| - 1])
  }

  lemma {:induction false} InForceFrom(items: seq<Item>)
    ensures PageAfter(items) == PageFrom(items, LastPage(items))
    ensures UsageAfter(items) == UsageFrom(items, LastUsage(items))
  {
    if items != [] {
      InForceFrom(items[..|items| - 1]);
    }
  }

  /** The usage is still in force: it is the last one given and no Main item followed it. */
  lemma {:induction false} UsageIsLastOrDropped(items: seq<Item>)
    ensures UsageSource(items) == LastUsage(items) || UsageSource(items).None?
    ensures UsageSource(items).None? <==> DroppedUsage(items)
  {
    if items != [] {
      UsageIsLastOrDropped(items[..|items| - 1]);
    }
  }

  /** No usage was given since the last Main item. */
  predicate DroppedUsage(items: seq<Item>) {
    items != [] ==>
      var last := items[|items| - 1];
      !SetsUsage(last) && (IsMain(last) || DroppedUsage(items[..|items| - 1]))
  }

  // ---- when the page that was set last is in force ----

  /** How many pages are saved: Push saves one, Pop restores one if there is any. */
  function Saved(items: seq<Item>): nat {
    if items == [] then 0
    else
      var last, saved := items[|items| - 1], Saved(items[..|items| - 1]);
      if IsShort(last, PUSH) then saved + 1
      else if IsShort(last, POP) && saved > 0 then saved - 1
      else saved
  }

  /** No Pop after item j goes back behind it: never are fewer pages saved than before item j. */
  predicate NeverRestored(items: seq<Item>, j: nat)
    requires j < |items|
    decreases |items|
  {
    |items| == j + 1 || (NeverRestored(items[..|items| - 1], j) && Saved(items) >= Saved(items[..j]))
  }

  /** No usage and no Main item comes after item j. */
  ghost predicate UsageStands(items: seq<Item>, j: nat) {
    forall k :: j < k < |items| ==> !SetsUsage(items[k]) && !IsMain(items[k])
  }

  /** The usage in force is a 4-byte one. */
  ghost predicate NamesOwnPage(items: seq<Item>) {
    exists j :: 0 <= j < |items| && IsExtended(items[j]) && UsageStands(items, j)
  }

  /** The last item that sets a page decides it: there is none; or it is a 4-byte usage that is in force; or it
      is a Usage Page, no 4-byte usage is in force, and no Pop restored an older page. */
  ghost predicate PageStands(items: seq<Item>) {
    match LastPage(items)
    case None => true
    case Some(j) => if IsExtended(items[j]) then UsageStands(items, j) else !NamesOwnPage(items) && NeverRestored(items, j)
  }

  lemma {:induction false} UsageInForce(items: seq<Item>)
    ensures var t := TableAfter(items);
      && (t.usage.Some? ==> t.usage.value < |items| && SetsUsage(items[t.usage.value]) && UsageStands(items, t.usage.value))
      && forall j :: 0 <= j < |items| && SetsUsage(items[j]) && UsageStands(items, j) ==> t.usage == Some(j)
  {
    if items != [] {
      var before := items[..|items| - 1];
      UsageInForce(before);
      forall j | 0 <= j < |before| && UsageStands(items, j) ensures UsageStands(before, j) {
        assert forall k :: j < k < |before| ==> items[k] == before[k];
      }
    }
  }

  lemma OwnPageInForce(items: seq<Item>)
    ensures var t := TableAfter(items);
      NamesOwnPage(items) <==> t.usage.Some? && t.usage.value < |items| && IsExtended(items[t.usage.value])
  {
    UsageInForce(items);
  }

  /** Every saved page, and the page in force, was set by a Usage Page before item j, or never. */
  ghost predicate Older(t: Table, j: nat) {
    && (t.page.Some? ==> t.page.value < j)
    && forall k :: 0 <= k < |t.stack| ==> (t.stack[k].Some? ==> t.stack[k].value < j)
  }

  /** Item j set the page in force and the pages saved above height h. */
  ghost predicate SetBy(t: Table, j: nat, h: nat) {
    && h <= |t.stack| && t.page == Some(j)
    && (forall k :: h <= k < |t.stack| ==> t.stack[k] == Some(j))
    && forall k :: 0 <= k < h ==> (t.stack[k].Some? ==> t.stack[k].value < j)
  }

  lemma EnterOlder(t: Table, it: Item, i: nat)
    requires Older(t, i)
    ensures var t' := Enter(t, it, i);
      && Older(t', i + 1)
      && |t'.stack| == if IsShort(it, PUSH) then |t.stack| + 1
                       else if IsShort(it, POP) && t.stack != [] then |t.stack| - 1 else |t.stack|
  {
  }

  lemma {:induction false} TableIsOlder(items: seq<Item>)
    ensures Older(TableAfter(items), |items|) && |TableAfter(items).stack| == Saved(items)
  {
    if items != [] {
      TableIsOlder(items[..|items| - 1]);
      EnterOlder(TableAfter(items[..|items| - 1]), items[|items| - 1], |items| - 1);
    }
  }

  /** One more item keeps the page of item j in force, or restores one saved before it. */
  lemma EnterAbove(t: Table, it: Item, i: nat, j: nat, h: nat)
    requires !IsShort(it, USAGE_PAGE)
    ensures SetBy(t, j, h) ==>
      if IsShort(it, POP) && |t.stack| == h > 0 then Older(Enter(t, it, i), j) else SetBy(Enter(t, it, i), j, h)
    ensures Older(t, j) ==> Older(Enter(t, it, i), j)
  {
  }

  ghost predicate NoUsagePageAfter(items: seq<Item>, j: nat) {
    forall k :: j < k < |items| ==> !IsShort(items[k], USAGE_PAGE)
  }

  /** The last Usage Page is in force exactly as long as no Pop goes back behind it. */
  lemma {:induction false} UsagePageInForce(items: seq<Item>, j: nat)
    requires j < |items| && IsShort(items[j], USAGE_PAGE) && NoUsagePageAfter(items, j)
    ensures if NeverRestored(items, j) then SetBy(TableAfter(items), j, Saved(items[..j])) else Older(TableAfter(items), j)
    decreases |items|
  {
    var before, last := items[..|items| - 1], items[|items| - 1];
    if j == |before| {
      TableIsOlder(before);
    } else {
      assert NoUsagePageAfter(before, j) && before[j] == items[j] && before[..j] == items[..j];
      UsagePageInForce(before, j);
      EnterAbove(TableAfter(before), last, |before|, j, Saved(items[..j]));
      TableIsOlder(before);
      assert !IsShort(last, USAGE_PAGE);
    }
  }

  lemma {:induction false} LastPageIsLast(items: seq<Item>)
    ensures match LastPage(items)
      case None => forall k :: 0 <= k < |items| ==> !SetsPage(items[k])
      case Some(j) => forall k :: j < k < |items| ==> !SetsPage(items[k])
  {
    if items != [] {
      LastPageIsLast(items[..|items| - 1]);
    }
  }

  predicate UsagePageAt(items: seq<Item>, source: Option<nat>) {
    source.Some? ==> source.value < |items| && IsShort(items[source.value], USAGE_PAGE)
  }

  ghost predicate SetByUsagePages(items: seq<Item>, t: Table) {
    UsagePageAt(items, t.page) && forall k :: 0 <= k < |t.stack| ==> UsagePageAt(items, t.stack[k])
  }

  lemma EnterGlobal(items: seq<Item>, t: Table)
    requires items != [] && SetByUsagePages(items[..|items| - 1], t)
    ensures SetByUsagePages(items, Enter(t, items[|items| - 1], |items| - 1))
  {
    var before, t' := items[..|items| - 1], Enter(t, items[|items| - 1], |items| - 1);
    assert UsagePageAt(items, t'.page);
    forall k | 0 <= k < |t'.stack| ensures UsagePageAt(items, t'.stack[k]) {
      assert k < |t.stack| ==> UsagePageAt(before, t.stack[k]);
    }
  }

  /** The page in force was set by a Usage Page. */
  lemma {:induction false} GlobalPages(items: seq<Item>)
    ensures SetByUsagePages(items, TableAfter(items))
  {
    if items != [] {
      GlobalPages(items[..|items| - 1]);
      EnterGlobal(items, TableAfter(items[..|items| - 1]));
    }
  }

  /** The item that set a page last is the one that decides it exactly when its page stands. */
  lemma LastPageDecidesIff(items: seq<Item>)
    ensures LastPage(items) == PageSource(items) <==> PageStands(items)
  {
    LastPageIsLast(items);
    GlobalPages(items);
    UsageInForce(items);
    OwnPageInForce(items);
    match LastPage(items)
    case None =>
    case Some(j) =>
      if !IsExtended(items[j]) {
        assert NoUsagePageAfter(items, j);
        UsagePageInForce(items, j);
      }
  }

  /** On the encoding of any items with an application collection, the scan returns what the specification gives
      that collection if and only if the last page set stands, or the specification's page has the same number;
      and no Main item stands between the last usage and the collection, unless that usage is 0. */
  lemma ScanMeetsSpecificationIff(items: seq<Item>)
    requires WellFormedItems(items) && FirstApplication(items) < |items|
    ensures var before := items[..FirstApplication(items)];
      Scan(Encode(items), 0, 0, 0) == Named(before) <==>
        && (PageStands(before) || PageFrom(before, LastPage(before)) == PageFrom(before, PageSource(before)))
        && (!DroppedUsage(before) || UsageFrom(before, LastUsage(before)) == 0)
  {
    var before := items[..FirstApplication(items)];
    FirstApplicationFound(items);
    InForceFrom(before);
    LastPageDecidesIff(before);
    UsageIsLastOrDropped(before);
  }

  /** No two items set the same page, and none sets page or usage 0. */
  ghost predicate Distinct(items: seq<Item>) {
    && (forall i :: 0 <= i < |items| && SetsPage(items[i]) ==> PageSet(items[i]) != 0)
    && (forall i :: 0 <= i < |items| && SetsUsage(items[i]) ==> Value(items[i]) % 0x1_0000 != 0)
    && forall i, k :: 0 <= i < k < |items| && SetsPage(items[i]) && SetsPage(items[k]) ==>
         PageSet(items[i]) != PageSet(items[k])
  }

  lemma DistinctSources(items: seq<Item>)
    requires Distinct(items)
    ensures PageFrom(items, LastPage(items)) == PageFrom(items, PageSource(items)) <==> LastPage(items) == PageSource(items)
    ensures UsageFrom(items, LastUsage(items)) == 0 <==> LastUsage(items).None?
  {
  }

  /** When no two numbers happen to be equal, the order of the items alone decides. */
  lemma OrderDecides(items: seq<Item>)
    requires WellFormedItems(items) && FirstApplication(items) < |items|
    requires Distinct(items[..FirstApplication(items)])
    ensures var before := items[..FirstApplication(items)];
      Scan(Encode(items), 0, 0, 0) == Named(before) <==>
        PageStands(before) && (!DroppedUsage(before) || LastUsage(before).None?)
  {
    var before := items[..FirstApplication(items)];
    ScanMeetsSpecificationIff(items);
    LastPageDecidesIff(before);
    DistinctSources(before);
  }

  /** No Pop and no extended usage: the page is always the last one set. */
  ghost predicate Plain(items: seq<Item>) {
    forall i :: 0 <= i < |items| ==> !IsShort(items[i], POP) && !IsExtended(items[i])
  }

  lemma {:induction false} PlainPages(items: seq<Item>)
    requires Plain(items)
    ensures PageSource(items) == LastPage(items) == TableAfter(items).page
  {
    TableIsValid(items);
    if items != [] {
      PlainPages(items[..|items| - 1]);
    }
  }

  /** Before the application collection of an ordinary descriptor, which has neither Pop nor extended usages and
      names the collection after the last Main item, the scan returns what the specification gives. */
  lemma PlainDescriptors(items: seq<Item>)
    requires WellFormedItems(items) && FirstApplication(items) < |items|
    requires var before := items[..FirstApplication(items)]; Plain(before) && !DroppedUsage(before)
    ensures Scan(Encode(items), 0, 0, 0) == Named(items[..FirstApplication(items)])
  {
    PlainPages(items[..FirstApplication(items)]);
    ScanMeetsSpecificationIff(items);
  }

  /** The device's own descriptor begins like this, so the host finds its usage FF00:0001. */
  lemma OwnDescriptor(rest: seq<byte>)
    ensures Scan([0x06, 0x00, 0xFF, 0x09, 0x01, 0xA1, 0x01] + rest, 0, 0, 0) == (0xFF00, 0x01)
  {
    var d := [0x06, 0x00, 0xFF, 0x09, 0x01, 0xA1, 0x01] + rest;
    var page, usage := Short(USAGE_PAGE, [0x00, 0xFF]), UsageItem(0x01);
    assert [0x00, 0xFF][1..] == [0xFF] && W.LeValue([0xFF]) == 0xFF;
    ItemReads(d, 0, page);
    ItemReads(d, 3, usage);
    ItemReads(d, 5, APPLICATION_ITEM);
    ShortScanned(d, 0, page, 0, 0);
    ShortScanned(d, 3, usage, 0xFF00, 0);
    ShortScanned(d, 5, APPLICATION_ITEM, 0xFF00, 0x01);
  }

  lemma ItemReads(d: seq<byte>, i: nat, it: Item)
    requires WellFormedItem(it) && it.Short? && i + 1 + |it.data| <= |d|
    requires d[i] == it.kind + SizeCode(it.data) && d[i + 1..i + 1 + |it.data|] == it.data
    ensures ReadsAs(d, i, it)
  {
    assert d[i..i + |EncodeItem(it)|] == EncodeItem(it);
    ShortRead(d, i, it);
  }

  // ---- descriptors on which they part ----

  function PageItem(page: byte): Item {
    Short(USAGE_PAGE, [page])
  }

  function UsageItem(usage: byte): Item {
    Short(USAGE, [usage])
  }

  const APPLICATION_ITEM := Short(COLLECTION, [0x01])

  lemma EnterSnoc(items: seq<Item>, it: Item)
    ensures TableAfter(items + [it]) == Enter(TableAfter(items), it, |items|)
  {
    assert (items + [it])[..|items|] == items;
  }

  /** Items that can be encoded and open no application collection. */
  ghost predicate Preamble(items: seq<Item>) {
    forall i :: 0 <= i < |items| ==> WellFormedItem(items[i]) && !OpensApplication(items[i])
  }

  lemma {:induction false} OnlyApplication(before: seq<Item>)
    requires Preamble(before)
    ensures FirstApplication(before + [APPLICATION_ITEM]) == |before|
  {
    if before != [] {
      assert (before + [APPLICATION_ITEM])[1..] == before[1..] + [APPLICATION_ITEM];
      OnlyApplication(before[1..]);
    }
  }

  /** What the scan returns for a descriptor that goes on with an application collection. */
  function ScanOf(before: seq<Item>): (u16, u16)
    requires Preamble(before)
  {
    var items := before + [APPLICATION_ITEM];
    assert WellFormedItems(items);
    Scan(Encode(items), 0, 0, 0)
  }

  lemma ScanOfPreamble(before: seq<Item>)
    requires Preamble(before)
    ensures ScanOf(before) == (PageAfter(before), UsageAfter(before))
  {
    var items := before + [APPLICATION_ITEM];
    OnlyApplication(before);
    FirstApplicationFound(items);
    assert items[..|before|] == before;
  }

  function SavedPage(p: byte, q: byte): seq<Item> {
    [PageItem(p), Short(PUSH, []), PageItem(q), Short(POP, [])]
  }

  /** Page p, Push, page q, Pop, usage u: the scan returns q:u for p:u. */
  lemma PopIsIgnored(p: byte, q: byte, u: byte)
    ensures var before := SavedPage(p, q) + [UsageItem(u)];
      Preamble(before) && ScanOf(before) == (q, u) && Named(before) == (p, u)
  {
    SavedPageNamed(p, q, u);
    SavedPageScanned(p, q, u);
  }

  lemma SavedPageNamed(p: byte, q: byte, u: byte)
    ensures Named(SavedPage(p, q) + [UsageItem(u)]) == (p, u)
  {
    PopRestores(p, q);
    ByteValue(p);
    assert PageFrom(SavedPage(p, q), Some(0)) == p;
    ShortUsageNamed(SavedPage(p, q), u, p);
  }

  lemma SavedPageScanned(p: byte, q: byte, u: byte)
    ensures var before := SavedPage(p, q) + [UsageItem(u)]; Preamble(before) && ScanOf(before) == (q, u)
  {
    PopRestores(p, q);
    ShortUsageScanned(SavedPage(p, q), u);
  }

  lemma ShortUsageScanned(items: seq<Item>, usage: byte)
    requires Preamble(items)
    ensures var before := items + [UsageItem(usage)]; Preamble(before) && ScanOf(before) == (PageAfter(items), usage)
  {
    InForceSnoc(items, UsageItem(usage));
    ScanOfPreamble(items + [UsageItem(usage)]);
  }

  lemma PopRestores(p: byte, q: byte)
    ensures TableAfter(SavedPage(p, q)) == Table(Some(0), [], None) && PageAfter(SavedPage(p, q)) == q
  {
    var a, b, c, d := PageItem(p), Short(PUSH, []), PageItem(q), Short(POP, []);
    assert SavedPage(p, q) == [] + [a] + [b] + [c] + [d];
    FourEntered(a, b, c, d);
    RestoredTable(p, q);
    ThirdPage(a, b, c, d);
    PageOf(q);
  }

  lemma PageOf(page: byte)
    ensures SetsPage(PageItem(page)) && PageSet(PageItem(page)) == page
  {
    ByteValue(page);
  }

  lemma PageEntered(t: Table, page: byte, i: nat)
    ensures Enter(t, PageItem(page), i) == t.(page := Some(i))
  {
  }

  lemma PushEntered(t: Table, i: nat)
    ensures Enter(t, Short(PUSH, []), i) == t.(stack := t.stack + [t.page])
  {
  }

  lemma PopEntered(t: Table, below: seq<Option<nat>>, page: Option<nat>, i: nat)
    requires t.stack == below + [page]
    ensures Enter(t, Short(POP, []), i) == t.(page := page, stack := below)
  {
    assert t.stack[..|t.stack| - 1] == below;
  }

  lemma RestoredTable(p: byte, q: byte)
    ensures Enter(Enter(Enter(Enter(Table(None, [], None), PageItem(p), 0), Short(PUSH, []), 1), PageItem(q), 2),
                  Short(POP, []), 3) == Table(Some(0), [], None)
  {
    PageEntered(Table(None, [], None), p, 0);
    PushEntered(Table(Some(0), [], None), 1);
    PageEntered(Table(Some(0), [] + [Some(0)], None), q, 2);
    PopEntered(Table(Some(2), [] + [Some(0)], None), [], Some(0), 3);
  }

  lemma ThirdPage(a: Item, b: Item, c: Item, d: Item)
    requires SetsPage(c) && !SetsPage(d)
    ensures PageAfter([] + [a] + [b] + [c] + [d]) == PageSet(c)
  {
    InForceSnoc([] + [a] + [b], c);
    InForceSnoc([] + [a] + [b] + [c], d);
  }

  lemma FourEntered(a: Item, b: Item, c: Item, d: Item)
    ensures TableAfter([] + [a] + [b] + [c] + [d]) ==
      Enter(Enter(Enter(Enter(Table(None, [], None), a, 0), b, 1), c, 2), d, 3)
  {
    EnterSnoc([], a);
    EnterSnoc([] + [a], b);
    EnterSnoc([] + [a] + [b], c);
    EnterSnoc([] + [a] + [b] + [c], d);
  }

  /** Page 1, usage 9:5, usage 6: the scan returns 9:6 for 1:6. */
  lemma ExtendedPageLeaks()
    ensures var before := [PageItem(1), Short(USAGE, [5, 0, 9, 0]), UsageItem(6)];
      Preamble(before) && ScanOf(before) == (9, 6) && Named(before) == (1, 6)
  {
    var two := [PageItem(1), Short(USAGE, [5, 0, 9, 0])];
    ExtendedSets();
    assert two + [UsageItem(6)] == [PageItem(1), Short(USAGE, [5, 0, 9, 0]), UsageItem(6)];
    ByteValue(1);
    ShortUsageNamed(two, 6, 1);
    ShortUsageScanned(two, 6);
  }

  /** A short usage takes the global page. */
  lemma ShortUsageNamed(items: seq<Item>, usage: byte, page: u16)
    requires var source := TableAfter(items).page; ValidPage(items, source) && PageFrom(items, source) == page
    ensures Named(items + [UsageItem(usage)]) == (page, usage)
  {
    var more, source := items + [UsageItem(usage)], TableAfter(items).page;
    EnterSnoc(items, UsageItem(usage));
    ByteValue(usage);
    assert more[|items|] == UsageItem(usage) && UsageSource(more) == Some(|items|);
    assert PageSource(more) == source;
    assert source.Some? ==> more[source.value] == items[source.value];
  }

  lemma ByteValue(b: byte)
    ensures W.LeValue([b]) == b
  {
    assert [b][1..] == [];
  }

  lemma ExtendedSets()
    ensures var two := [PageItem(1), Short(USAGE, [5, 0, 9, 0])];
      TableAfter(two) == Table(Some(0), [], Some(1)) && PageAfter(two) == 9
  {
    var first, it := PageItem(1), Short(USAGE, [5, 0, 9, 0]);
    assert [first, it] == [first] + [it] && [first] == [] + [first];
    EnterSnoc([], first);
    EnterSnoc([first], it);
    InForceSnoc([first], it);
    ExtendedValue();
  }

  lemma ExtendedValue()
    ensures W.LeValue([5, 0, 9, 0]) == 0x9_0005
  {
    assert [5, 0, 9, 0][1..] == [0, 9, 0] && [0, 9, 0][1..] == [9, 0] && [9, 0][1..] == [0];
    assert W.LeValue([0]) == 0 && W.LeValue([9, 0]) == 9;
  }

  /** Usage 9:5, page 1: the scan returns 1:5 for 9:5. */
  lemma ExtendedPageIsOverridden()
    ensures var before := [Short(USAGE, [5, 0, 9, 0]), PageItem(1)];
      Preamble(before) && ScanOf(before) == (1, 5) && Named(before) == (9, 5)
  {
    var a, b := Short(USAGE, [5, 0, 9, 0]), PageItem(1);
    assert [a, b] == [] + [a] + [b];
    ExtendedValue();
    EnterSnoc([], a); EnterSnoc([] + [a], b);
    InForceSnoc([], a); InForceSnoc([] + [a], b);
    ScanOfPreamble([a, b]);
  }

  /** Page 1, usage 6, Input: the scan returns 1:6 for a collection that is given no usage. */
  lemma UsageOutlivesMain()
    ensures var before := [PageItem(1), UsageItem(6), Short(INPUT, [2])];
      Preamble(before) && ScanOf(before) == (1, 6) && Named(before) == (1, 0)
  {
    var a, b, c := PageItem(1), UsageItem(6), Short(INPUT, [2]);
    assert [a, b, c] == [] + [a] + [b] + [c];
    EnterSnoc([], a); EnterSnoc([] + [a], b); EnterSnoc([] + [a] + [b], c);
    InForceSnoc([], a); InForceSnoc([] + [a], b); InForceSnoc([] + [a] + [b], c);
    ScanOfPreamble([a, b, c]);
  }
}
