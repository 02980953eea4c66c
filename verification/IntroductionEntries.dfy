/** What an introduction frame is rebuilt to (sharing/incoming_share_session.cc:85-178): one attachment for each
    that the frame describes, its id, size and payload, and the id the payload is recorded under.
 */
module IntroductionEntries {
  import opened Wrappers
  import opened Introductions

  // ---------------------------------------------------------------- recording payloads

  // SetAttachmentPayloadId for each pair in turn.
  function Assign(m: map<int, int>, pairs: seq<(int, int)>): map<int, int> {
    if pairs == [] then m else Assign(m, pairs[..|pairs| - 1])[pairs[|pairs| - 1].0 := pairs[|pairs| - 1].1]
  }

  ghost predicate Consistent(pairs: seq<(int, int)>) {
    forall i, j :: 0 <= i < j < |pairs| && pairs[i].0 == pairs[j].0 ==> pairs[i].1 == pairs[j].1
  }

  ghost predicate Finds(m: map<int, int>, pair: (int, int)) { pair.0 in m && m[pair.0] == pair.1 }

  lemma {:induction false} AssignFinds(pairs: seq<(int, int)>)
    ensures Assign(map[], pairs).Keys == set i | 0 <= i < |pairs| :: pairs[i].0
    ensures forall k :: k in Assign(map[], pairs) ==> (k, Assign(map[], pairs)[k]) in pairs
  {
    if pairs != [] {
      AssignFinds(pairs[..|pairs| - 1]);
    }
  }

  // A pair is found if it was recorded and no other was recorded under its key.
  lemma {:induction false} FindsRecorded(pairs: seq<(int, int)>, i: nat)
    requires i < |pairs|
    requires forall j :: 0 <= j < |pairs| && pairs[j].0 == pairs[i].0 ==> pairs[j].1 == pairs[i].1
    ensures Finds(Assign(map[], pairs), pairs[i])
  {
    AssignFinds(pairs);
    var m, k := Assign(map[], pairs), pairs[i].0;
    assert k in m.Keys;
    assert (k, m[k]) in pairs;
    var j :| 0 <= j < |pairs| && pairs[j] == (k, m[k]);
    assert pairs[j].0 == pairs[i].0;
  }

  // Consistent pairs give the same map in whatever order they are recorded.
  lemma {:induction false} OrderDoesNotMatter(a: seq<(int, int)>, b: seq<(int, int)>)
    requires Consistent(a) && (forall x :: x in a <==> x in b)
    ensures Assign(map[], a) == Assign(map[], b)
  {
    AssignFinds(a);
    AssignFinds(b);
    var m, n := Assign(map[], a), Assign(map[], b);
    forall k | k in m ensures k in n {
      assert (k, m[k]) in a;
      assert (k, m[k]) in b;
    }
    forall k | k in n ensures k in m && m[k] == n[k] {
      assert (k, n[k]) in b;
      assert (k, n[k]) in a;
      var i :| 0 <= i < |a| && a[i] == (k, n[k]);
      forall j | 0 <= j < |a| && a[j].0 == a[i].0 ensures a[j].1 == a[i].1 {
        assert i < j || j < i || i == j;
      }
      FindsRecorded(a, i);
    }
  }

  lemma {:induction false} AssignMore(m: map<int, int>, a: seq<(int, int)>, b: seq<(int, int)>)
    ensures Assign(m, a + b) == Assign(Assign(m, a), b)
    decreases |b|
  {
    if b == [] {
      assert a + b == a;
    } else {
      AssignMore(m, a, b[..|b| - 1]);
      assert (a + b)[..|a + b| - 1] == a + b[..|b| - 1];
    }
  }

  // ---------------------------------------------------------------- the attachments a frame describes

  // One attachment of the frame: an apk comes without an id.
  datatype Slot = Slot(id: int, size: int, payload: int, apk: bool)

  function FileSlot(m: FileMetadata): Slot { Slot(m.file.id, m.file.size, m.payloadId, false) }

  function TextSlot(m: TextMetadata): Slot { Slot(m.text.id, m.text.size, m.payloadId, false) }

  // The size of Wi-Fi credentials is the length of their SSID.
  function WifiSlot(m: WifiMetadata): Slot { Slot(m.wifi.id, |m.wifi.ssid|, m.payloadId, false) }

  function FileSlots(ms: seq<FileMetadata>): seq<Slot> {
    if ms == [] then [] else [FileSlot(ms[0])] + FileSlots(ms[1..])
  }

  function ApkSlots(app: App, index: nat): seq<Slot>
    requires Aligned(app) && index <= |app.names|
    decreases |app.names| - index
  {
    if index == |app.names| then []
    else [Slot(0, app.sizes[index], app.payloadIds[index], true)] + ApkSlots(app, index + 1)
  }

  function AppSlots(apps: seq<App>): seq<Slot>
    requires AllAligned(apps)
  {
    if apps == [] then [] else ApkSlots(apps[0], 0) + AppSlots(apps[1..])
  }

  function TextSlots(ms: seq<TextMetadata>): seq<Slot> {
    if ms == [] then [] else [TextSlot(ms[0])] + TextSlots(ms[1..])
  }

  function WifiSlots(ms: seq<WifiMetadata>): seq<Slot> {
    if ms == [] then [] else [WifiSlot(ms[0])] + WifiSlots(ms[1..])
  }

  // The frame's attachments in the order of the rebuilt ones.
  function Slots(f: Frame): seq<Slot>
    requires AllAligned(f.apps)
  {
    FileSlots(f.files) + AppSlots(f.apps) + TextSlots(f.texts) + WifiSlots(f.wifis)
  }

  // ---------------------------------------------------------------- what becomes of them

  // Id and size of an attachment.
  datatype Item = Item(id: int, size: int)

  function FileItems(files: seq<File>): (r: seq<Item>)
    ensures |r| == |files| && forall i :: 0 <= i < |r| ==> r[i] == Item(files[i].id, files[i].size)
  {
    seq(|files|, i requires 0 <= i < |files| => Item(files[i].id, files[i].size))
  }

  function TextItems(texts: seq<Text>): (r: seq<Item>)
    ensures |r| == |texts| && forall i :: 0 <= i < |r| ==> r[i] == Item(texts[i].id, texts[i].size)
  {
    seq(|texts|, i requires 0 <= i < |texts| => Item(texts[i].id, texts[i].size))
  }

  function WifiItems(wifis: seq<Wifi>): (r: seq<Item>)
    ensures |r| == |wifis| && forall i :: 0 <= i < |r| ==> r[i] == Item(wifis[i].id, |wifis[i].ssid|)
  {
    seq(|wifis|, i requires 0 <= i < |wifis| => Item(wifis[i].id, |wifis[i].ssid|))
  }

  function Items(c: Container): seq<Item> { FileItems(c.files) + TextItems(c.texts) + WifiItems(c.wifis) }

  // An attachment rebuilt: the id its payload is recorded under, and what it holds.
  datatype Entry = Entry(recordedAs: int, item: Item, payload: int)

  function Draws(slot: Slot): nat { if slot.id == 0 then 1 else 0 }

  function Zeros(slots: seq<Slot>): nat {
    if slots == [] then 0 else Draws(slots[0]) + Zeros(slots[1..])
  }

  function Enter(slot: Slot, random: nat -> int, drawn: nat): Entry {
    var id := if slot.id == 0 then random(drawn) else slot.id;
    Entry(if slot.apk then id else slot.id, Item(id, slot.size), slot.payload)
  }

  // Every id 0 draws the next random id.
  function Entries(slots: seq<Slot>, random: nat -> int, drawn: nat): (r: seq<Entry>)
    ensures |r| == |slots|
  {
    if slots == [] then []
    else [Enter(slots[0], random, drawn)] + Entries(slots[1..], random, drawn + Draws(slots[0]))
  }

  lemma {:induction false} EntryAt(slots: seq<Slot>, random: nat -> int, drawn: nat, i: nat)
    requires i < |slots|
    ensures Entries(slots, random, drawn)[i] == Enter(slots[i], random, drawn + Zeros(slots[..i]))
  {
    if i > 0 {
      EntryAt(slots[1..], random, drawn + Draws(slots[0]), i - 1);
      assert slots[..i][1..] == slots[1..][..i - 1];
    }
  }

  function Recorded(es: seq<Entry>): (r: seq<(int, int)>)
    ensures |r| == |es| && forall i :: 0 <= i < |r| ==> r[i] == (es[i].recordedAs, es[i].payload)
  {
    seq(|es|, i requires 0 <= i < |es| => (es[i].recordedAs, es[i].payload))
  }

  function Held(es: seq<Entry>): (r: seq<Item>)
    ensures |r| == |es| && forall i :: 0 <= i < |r| ==> r[i] == es[i].item
  {
    seq(|es|, i requires 0 <= i < |es| => es[i].item)
  }

  lemma Associative<T>(x: seq<T>, y: seq<T>, z: seq<T>)
    ensures x + (y + z) == (x + y) + z
  {
  }

  lemma {:induction false} ZerosMore(a: seq<Slot>, b: seq<Slot>)
    ensures Zeros(a + b) == Zeros(a) + Zeros(b)
  {
    if a == [] {
      assert a + b == b;
    } else {
      ZerosMore(a[1..], b);
      assert (a + b)[1..] == a[1..] + b;
    }
  }

  lemma EntriesHead(a: seq<Slot>, b: seq<Slot>, random: nat -> int, drawn: nat)
    requires a != []
    ensures Entries(a + b, random, drawn)
         == [Enter(a[0], random, drawn)] + Entries(a[1..] + b, random, drawn + Draws(a[0]))
  {
    assert (a + b)[1..] == a[1..] + b && (a + b)[0] == a[0];
  }

  lemma {:induction false} EntriesMore(a: seq<Slot>, b: seq<Slot>, random: nat -> int, drawn: nat)
    ensures Entries(a + b, random, drawn) == Entries(a, random, drawn) + Entries(b, random, drawn + Zeros(a))
  {
    if a == [] {
      assert a + b == b;
    } else {
      var e, next := Enter(a[0], random, drawn), drawn + Draws(a[0]);
      var es, fs := Entries(a[1..], random, next), Entries(b, random, drawn + Zeros(a));
      calc {
        Entries(a + b, random, drawn);
      ==  { EntriesHead(a, b, random, drawn); }
        [e] + Entries(a[1..] + b, random, next);
      ==  { EntriesMore(a[1..], b, random, next); }
        [e] + (es + fs);
      ==  { Associative([e], es, fs); }
        ([e] + es) + fs;
      }
    }
  }

  lemma {:induction false} PartsMore(a: seq<Slot>, b: seq<Slot>, random: nat -> int, drawn: nat)
    ensures var es, fs := Entries(a, random, drawn), Entries(b, random, drawn + Zeros(a));
            && Held(Entries(a + b, random, drawn)) == Held(es) + Held(fs)
            && Recorded(Entries(a + b, random, drawn)) == Recorded(es) + Recorded(fs)
  {
    EntriesMore(a, b, random, drawn);
  }

  // One section of the frame read: payloads recorded, ids drawn and attachments added.
  ghost predicate Booked(s: Reading, s1: Reading, slots: seq<Slot>, random: nat -> int) {
    && s1.payloadOf == Assign(s.payloadOf, Recorded(Entries(slots, random, s.drawn)))
    && s1.drawn == s.drawn + Zeros(slots)
  }

  ghost predicate Adds(before: seq<Item>, after: seq<Item>, s: Reading, slots: seq<Slot>, random: nat -> int) {
    after == before + Held(Entries(slots, random, s.drawn))
  }

  lemma BookedMore(s: Reading, s1: Reading, s2: Reading, a: seq<Slot>, b: seq<Slot>,
                   random: nat -> int)
    requires Booked(s, s1, a, random) && Booked(s1, s2, b, random)
    ensures Booked(s, s2, a + b, random)
  {
    PartsMore(a, b, random, s.drawn);
    ZerosMore(a, b);
    AssignMore(s.payloadOf, Recorded(Entries(a, random, s.drawn)), Recorded(Entries(b, random, s1.drawn)));
  }

  lemma {:induction false} AddsMore(x: seq<Item>, y: seq<Item>, z: seq<Item>, s: Reading, s1: Reading,
                                    a: seq<Slot>, b: seq<Slot>, random: nat -> int)
    requires Adds(x, y, s, a, random) && Adds(y, z, s1, b, random) && s1.drawn == s.drawn + Zeros(a)
    ensures Adds(x, z, s, a + b, random)
  {
    PartsMore(a, b, random, s.drawn);
    Associative(x, Held(Entries(a, random, s.drawn)), Held(Entries(b, random, s1.drawn)));
  }

  // A single attachment.
  lemma BookedOne(s: Reading, s1: Reading, slot: Slot, random: nat -> int)
    requires var e := Enter(slot, random, s.drawn);
             && s1.payloadOf == s.payloadOf[e.recordedAs := e.payload]
             && s1.drawn == s.drawn + Draws(slot)
    ensures Booked(s, s1, [slot], random)
    ensures Held(Entries([slot], random, s.drawn)) == [Enter(slot, random, s.drawn).item]
  {
    var es := Entries([slot], random, s.drawn);
    assert [slot][1..] == [] && es == [Enter(slot, random, s.drawn)];
    assert Recorded(es)[..0] == [];
  }

  lemma NoSlots(s: Reading, items: seq<Item>, random: nat -> int)
    ensures Booked(s, s, [], random) && Adds(items, items, s, [], random)
  {
    assert Recorded(Entries([], random, s.drawn)) == [];
    assert items + Held(Entries([], random, s.drawn)) == items;
  }

  lemma {:induction false} FilesBooked(s: Reading, ms: seq<FileMetadata>, random: nat -> int)
    requires Random(random) && ReadFiles(s, ms, random).1 == None
    ensures var s1 := ReadFiles(s, ms, random).0;
            && Booked(s, s1, FileSlots(ms), random)
            && Adds(FileItems(s.container.files), FileItems(s1.container.files), s, FileSlots(ms), random)
            && s1.container == s.container.(files := s1.container.files)
    decreases |ms|
  {
    if ms == [] {
      NoSlots(s, FileItems(s.container.files), random);
    } else {
      var s0 := AddFile(s, ms[0], random);
      var s1 := s0.(sum := s0.sum + ms[0].file.size);
      var s2 := ReadFiles(s1, ms[1..], random).0;
      BookedOne(s, s1, FileSlot(ms[0]), random);
      assert FileItems(s1.container.files)
          == FileItems(s.container.files) + [Enter(FileSlot(ms[0]), random, s.drawn).item];
      FilesBooked(s1, ms[1..], random);
      BookedMore(s, s1, s2, [FileSlot(ms[0])], FileSlots(ms[1..]), random);
      AddsMore(FileItems(s.container.files), FileItems(s1.container.files), FileItems(s2.container.files), s, s1,
               [FileSlot(ms[0])], FileSlots(ms[1..]), random);
    }
  }

  lemma {:induction false} ApksBooked(s: Reading, app: App, index: nat, random: nat -> int)
    requires Random(random) && Aligned(app) && index <= |app.names|
    ensures var s1 := AddApks(s, app, index, random).0;
            && Booked(s, s1, ApkSlots(app, index), random)
            && Adds(FileItems(s.container.files), FileItems(s1.container.files), s, ApkSlots(app, index), random)
            && s1.container == s.container.(files := s1.container.files)
    decreases |app.names| - index
  {
    if index == |app.names| {
      NoSlots(s, FileItems(s.container.files), random);
    } else {
      var slot := Slot(0, app.sizes[index], app.payloadIds[index], true);
      var s1 := AddApk(s, app.names[index], app.sizes[index], app.payloadIds[index], random);
      var s2 := AddApks(s1, app, index + 1, random).0;
      BookedOne(s, s1, slot, random);
      assert FileItems(s1.container.files) == FileItems(s.container.files) + [Enter(slot, random, s.drawn).item];
      ApksBooked(s1, app, index + 1, random);
      BookedMore(s, s1, s2, [slot], ApkSlots(app, index + 1), random);
      AddsMore(FileItems(s.container.files), FileItems(s1.container.files), FileItems(s2.container.files), s, s1,
               [slot], ApkSlots(app, index + 1), random);
    }
  }

  lemma {:induction false} AppsBooked(s: Reading, apps: seq<App>, random: nat -> int)
    requires Random(random) && AllAligned(apps) && ReadApps(s, apps, random).1 == None
    ensures var s1 := ReadApps(s, apps, random).0;
            && Booked(s, s1, AppSlots(apps), random)
            && Adds(FileItems(s.container.files), FileItems(s1.container.files), s, AppSlots(apps), random)
            && s1.container == s.container.(files := s1.container.files)
    decreases |apps|
  {
    if apps == [] {
      NoSlots(s, FileItems(s.container.files), random);
    } else {
      HeadAndRest(apps);
      ApksReadIff(s, apps[0], 0, random);
      ApksBooked(s, apps[0], 0, random);
      var s0 := AddApks(s, apps[0], 0, random).0;
      var s1 := s0.(sum := s0.sum + apps[0].size);
      var s2 := ReadApps(s1, apps[1..], random).0;
      AppsBooked(s1, apps[1..], random);
      BookedMore(s, s1, s2, ApkSlots(apps[0], 0), AppSlots(apps[1..]), random);
      AddsMore(FileItems(s.container.files), FileItems(s1.container.files), FileItems(s2.container.files), s, s1,
               ApkSlots(apps[0], 0), AppSlots(apps[1..]), random);
    }
  }

  lemma {:induction false} TextsBooked(s: Reading, ms: seq<TextMetadata>, random: nat -> int)
    requires Random(random) && ReadTexts(s, ms, random).1 == None
    ensures var s1 := ReadTexts(s, ms, random).0;
            && Booked(s, s1, TextSlots(ms), random)
            && Adds(TextItems(s.container.texts), TextItems(s1.container.texts), s, TextSlots(ms), random)
            && s1.container == s.container.(texts := s1.container.texts)
    decreases |ms|
  {
    if ms == [] {
      NoSlots(s, TextItems(s.container.texts), random);
    } else {
      var s1 := AddText(s, ms[0], random);
      var s2 := ReadTexts(s1, ms[1..], random).0;
      BookedOne(s, s1, TextSlot(ms[0]), random);
      assert TextItems(s1.container.texts)
          == TextItems(s.container.texts) + [Enter(TextSlot(ms[0]), random, s.drawn).item];
      TextsBooked(s1, ms[1..], random);
      BookedMore(s, s1, s2, [TextSlot(ms[0])], TextSlots(ms[1..]), random);
      AddsMore(TextItems(s.container.texts), TextItems(s1.container.texts), TextItems(s2.container.texts), s, s1,
               [TextSlot(ms[0])], TextSlots(ms[1..]), random);
    }
  }

  lemma {:induction false} WifisBooked(s: Reading, ms: seq<WifiMetadata>, random: nat -> int)
    requires Random(random)
    ensures var s1 := ReadWifis(s, ms, random);
            && Booked(s, s1, WifiSlots(ms), random)
            && Adds(WifiItems(s.container.wifis), WifiItems(s1.container.wifis), s, WifiSlots(ms), random)
            && s1.container == s.container.(wifis := s1.container.wifis)
    decreases |ms|
  {
    if ms == [] {
      NoSlots(s, WifiItems(s.container.wifis), random);
    } else {
      var s1 := AddWifi(s, ms[0], random);
      var s2 := ReadWifis(s1, ms[1..], random);
      BookedOne(s, s1, WifiSlot(ms[0]), random);
      assert WifiItems(s1.container.wifis)
          == WifiItems(s.container.wifis) + [Enter(WifiSlot(ms[0]), random, s.drawn).item];
      WifisBooked(s1, ms[1..], random);
      BookedMore(s, s1, s2, [WifiSlot(ms[0])], WifiSlots(ms[1..]), random);
      AddsMore(WifiItems(s.container.wifis), WifiItems(s1.container.wifis), WifiItems(s2.container.wifis), s, s1,
               [WifiSlot(ms[0])], WifiSlots(ms[1..]), random);
    }
  }

  lemma {:induction false} ItemsOfParts(files: seq<Item>, texts: seq<Item>, wifis: seq<Item>,
                                        ab: seq<Slot>, c: seq<Slot>, d: seq<Slot>, random: nat -> int)
    requires files == Held(Entries(ab, random, 0))
    requires texts == Held(Entries(c, random, Zeros(ab)))
    requires wifis == Held(Entries(d, random, Zeros(ab + c)))
    ensures files + texts + wifis == Held(Entries(ab + c + d, random, 0))
  {
    PartsMore(ab, c, random, 0);
    PartsMore(ab + c, d, random, 0);
  }

  lemma {:induction false} FromNothing(after: seq<Item>, s: Reading, slots: seq<Slot>, random: nat -> int)
    requires Adds([], after, s, slots, random)
    ensures after == Held(Entries(slots, random, s.drawn))
  {
    assert [] + Held(Entries(slots, random, s.drawn)) == Held(Entries(slots, random, s.drawn));
  }

  // The sections of an accepted frame, read from nothing.
  lemma FilesAndApps(f: Frame, random: nat -> int)
    requires Random(random) && AllAligned(f.apps) && ReadFiles(START, f.files, random).1 == None
    requires ReadApps(ReadFiles(START, f.files, random).0, f.apps, random).1 == None
    ensures var s2 := ReadApps(ReadFiles(START, f.files, random).0, f.apps, random).0;
            var slots := FileSlots(f.files) + AppSlots(f.apps);
            && Booked(START, s2, slots, random) && s2.container.texts == [] && s2.container.wifis == []
            && FileItems(s2.container.files) == Held(Entries(slots, random, 0))
  {
    var s1 := ReadFiles(START, f.files, random).0;
    var s2 := ReadApps(s1, f.apps, random).0;
    var a, b := FileSlots(f.files), AppSlots(f.apps);
    FilesBooked(START, f.files, random);
    AppsBooked(s1, f.apps, random);
    BookedMore(START, s1, s2, a, b, random);
    AddsMore([], FileItems(s1.container.files), FileItems(s2.container.files), START, s1, a, b, random);
    FromNothing(FileItems(s2.container.files), START, a + b, random);
  }

  lemma {:induction false} TextsAfter(s: Reading, before: seq<Slot>, ms: seq<TextMetadata>, random: nat -> int)
    requires Random(random) && Booked(START, s, before, random) && s.container.texts == []
    requires ReadTexts(s, ms, random).1 == None
    ensures var s1 := ReadTexts(s, ms, random).0;
            && Booked(START, s1, before + TextSlots(ms), random)
            && s1.container == s.container.(texts := s1.container.texts)
            && TextItems(s1.container.texts) == Held(Entries(TextSlots(ms), random, Zeros(before)))
  {
    var s1 := ReadTexts(s, ms, random).0;
    TextsBooked(s, ms, random);
    BookedMore(START, s, s1, before, TextSlots(ms), random);
    FromNothing(TextItems(s1.container.texts), s, TextSlots(ms), random);
  }

  lemma {:induction false} WifisAfter(s: Reading, before: seq<Slot>, ms: seq<WifiMetadata>, random: nat -> int)
    requires Random(random) && Booked(START, s, before, random) && s.container.wifis == []
    ensures var s1 := ReadWifis(s, ms, random);
            && Booked(START, s1, before + WifiSlots(ms), random)
            && s1.container == s.container.(wifis := s1.container.wifis)
            && WifiItems(s1.container.wifis) == Held(Entries(WifiSlots(ms), random, Zeros(before)))
  {
    var s1 := ReadWifis(s, ms, random);
    WifisBooked(s, ms, random);
    BookedMore(START, s, s1, before, WifiSlots(ms), random);
    FromNothing(WifiItems(s1.container.wifis), s, WifiSlots(ms), random);
  }

  // Accepting a frame rebuilds its attachments in order and records each one's payload.
  lemma AcceptedEntries(f: Frame, random: nat -> int)
    requires Random(random) && AllAligned(f.apps) && Read(f, random).1 == None
    ensures var s := Read(f, random).0; var es := Entries(Slots(f), random, 0);
            Items(s.container) == Held(es) && s.payloadOf == Assign(map[], Recorded(es))
  {
    var s2 := ReadApps(ReadFiles(START, f.files, random).0, f.apps, random).0;
    var s3 := ReadTexts(s2, f.texts, random).0;
    var s4 := ReadWifis(s3, f.wifis, random);
    var ab, c, d := FileSlots(f.files) + AppSlots(f.apps), TextSlots(f.texts), WifiSlots(f.wifis);
    FilesAndApps(f, random);
    TextsAfter(s2, ab, f.texts, random);
    WifisAfter(s3, ab + c, f.wifis, random);
    ItemsOfParts(FileItems(s4.container.files), TextItems(s4.container.texts), WifiItems(s4.container.wifis),
                 ab, c, d, random);
  }
}
