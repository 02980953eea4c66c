/** The total size of the attachments rebuilt from an introduction frame (sharing/attachment_container.cc:35-51)
    against the overflow guard of the reading (sharing/incoming_share_session.cc:105-148).
 */
module AttachmentSizes {
  import opened Wrappers
  import opened Introductions
  import opened IntroductionEntries

  predicate InInt64(x: int) { -INT64_MAX - 1 <= x <= INT64_MAX }

  function Total(sizes: seq<int>): int { if sizes == [] then 0 else sizes[0] + Total(sizes[1..]) }

  // A sum that starts at `sum` and adds the sizes one by one never leaves 64 bits.
  predicate StaysWithin(sum: int, sizes: seq<int>)
    decreases sizes
  {
    InInt64(sum) && (sizes != [] ==> StaysWithin(sum + sizes[0], sizes[1..]))
  }

  function FileSizesOf(files: seq<File>): (r: seq<int>)
    ensures |r| == |files| && forall i :: 0 <= i < |r| ==> r[i] == files[i].size
  {
    seq(|files|, i requires 0 <= i < |files| => files[i].size)
  }

  function TextSizesOf(texts: seq<Text>): (r: seq<int>)
    ensures |r| == |texts| && forall i :: 0 <= i < |r| ==> r[i] == texts[i].size
  {
    seq(|texts|, i requires 0 <= i < |texts| => texts[i].size)
  }

  function WifiSizesOf(wifis: seq<Wifi>): (r: seq<int>)
    ensures |r| == |wifis| && forall i :: 0 <= i < |r| ==> r[i] == |wifis[i].ssid|
  {
    seq(|wifis|, i requires 0 <= i < |wifis| => |wifis[i].ssid|)
  }

  function Sizes(c: Container): seq<int> { FileSizesOf(c.files) + TextSizesOf(c.texts) + WifiSizesOf(c.wifis) }

  lemma {:induction false} TotalMore(a: seq<int>, b: seq<int>)
    ensures Total(a + b) == Total(a) + Total(b)
  {
    if a == [] {
      assert a + b == b;
    } else {
      TotalMore(a[1..], b);
      assert (a + b)[1..] == a[1..] + b;
    }
  }

  lemma {:induction false} StaysWithinMore(sum: int, a: seq<int>, b: seq<int>)
    ensures StaysWithin(sum, a + b) <==> StaysWithin(sum, a) && StaysWithin(sum + Total(a), b)
    decreases a
  {
    if a == [] {
      assert a + b == b;
    } else {
      StaysWithinMore(sum + a[0], a[1..], b);
      assert (a + b)[1..] == a[1..] + b;
    }
  }

  ghost predicate NotNegative(sizes: seq<int>) { forall i :: 0 <= i < |sizes| ==> sizes[i] >= 0 }

  // Sizes that are not negative only have to fit in the end.
  lemma {:induction false} GrowingSum(sum: int, sizes: seq<int>)
    requires InInt64(sum) && NotNegative(sizes)
    ensures Total(sizes) >= 0 && (StaysWithin(sum, sizes) <==> sum + Total(sizes) <= INT64_MAX)
    decreases sizes
  {
    if sizes != [] {
      if InInt64(sum + sizes[0]) {
        GrowingSum(sum + sizes[0], sizes[1..]);
      } else {
        GrowingSum(0, sizes[1..]);
      }
    }
  }

  // The sum once the first k sizes have been added to `start`, and what is left to add.
  ghost predicate LeftToAdd(start: int, sum: int, sizes: seq<int>, k: nat) {
    && k <= |sizes| && InInt64(sum) && sum + Total(sizes[k..]) == start + Total(sizes)
    && (StaysWithin(start, sizes) <==> StaysWithin(sum, sizes[k..]))
  }

  lemma {:induction false} AddOne(start: int, sum: int, sizes: seq<int>, k: nat)
    requires k < |sizes| && LeftToAdd(start, sum, sizes, k)
    ensures InInt64(sum + sizes[k]) ==> LeftToAdd(start, sum + sizes[k], sizes, k + 1)
    ensures !InInt64(sum + sizes[k]) ==> !StaysWithin(start, sizes)
  {
    var rest := sizes[k..];
    assert rest[0] == sizes[k] && rest[1..] == sizes[k + 1..];
    assert StaysWithin(sum, rest) <==> StaysWithin(sum + rest[0], rest[1..]);
  }

  lemma {:induction false} ThreeParts(a: seq<int>, b: seq<int>, c: seq<int>)
    ensures StaysWithin(0, a + b + c) <==>
            StaysWithin(0, a) && StaysWithin(Total(a), b) && StaysWithin(Total(a) + Total(b), c)
    ensures Total(a + b + c) == Total(a) + Total(b) + Total(c)
  {
    StaysWithinMore(0, a + b, c);
    StaysWithinMore(0, a, b);
    TotalMore(a + b, c);
    TotalMore(a, b);
  }

  // GetTotalAttachmentsSize; None stands for a signed overflow, which is undefined.
  method GetTotalAttachmentsSize(c: Container) returns (total: Option<int>)
    ensures total == if StaysWithin(0, Sizes(c)) then Some(Total(Sizes(c))) else None
  {
    ghost var files, texts, wifis := FileSizesOf(c.files), TextSizesOf(c.texts), WifiSizesOf(c.wifis);
    ThreeParts(files, texts, wifis);
    var sizeInBytes := 0;
    for i := 0 to |c.files|
      invariant LeftToAdd(0, sizeInBytes, files, i)
    {
      AddOne(0, sizeInBytes, files, i);
      if !InInt64(sizeInBytes + c.files[i].size) {
        return None;
      }
      sizeInBytes := sizeInBytes + c.files[i].size;
    }
    for i := 0 to |c.texts|
      invariant LeftToAdd(Total(files), sizeInBytes, texts, i)
    {
      AddOne(Total(files), sizeInBytes, texts, i);
      if !InInt64(sizeInBytes + c.texts[i].size) {
        return None;
      }
      sizeInBytes := sizeInBytes + c.texts[i].size;
    }
    for i := 0 to |c.wifis|
      invariant LeftToAdd(Total(files) + Total(texts), sizeInBytes, wifis, i)
    {
      AddOne(Total(files) + Total(texts), sizeInBytes, wifis, i);
      if !InInt64(sizeInBytes + |c.wifis[i].ssid|) {
        return None;
      }
      sizeInBytes := sizeInBytes + |c.wifis[i].ssid|;
    }
    total := Some(sizeInBytes);
  }

  // ---------------------------------------------------------------- the sizes an accepted frame brings

  function SlotSizes(slots: seq<Slot>): (r: seq<int>)
    ensures |r| == |slots| && forall i :: 0 <= i < |r| ==> r[i] == slots[i].size
  {
    seq(|slots|, i requires 0 <= i < |slots| => slots[i].size)
  }

  // The size of each apk, which is not its app's declared size.
  function ApkSizes(apps: seq<App>): seq<int>
    requires AllAligned(apps)
  {
    if apps == [] then [] else apps[0].sizes[..|apps[0].names|] + ApkSizes(apps[1..])
  }

  function TextSizes(ms: seq<TextMetadata>): int {
    if ms == [] then 0 else ms[0].text.size + TextSizes(ms[1..])
  }

  function SsidLengths(ms: seq<WifiMetadata>): nat {
    if ms == [] then 0 else |ms[0].wifi.ssid| + SsidLengths(ms[1..])
  }

  lemma {:induction false} FileTotal(ms: seq<FileMetadata>)
    ensures Total(SlotSizes(FileSlots(ms))) == FileSizes(ms)
    ensures PositiveFiles(ms) ==> NotNegative(SlotSizes(FileSlots(ms)))
  {
    if ms != [] {
      FileTotal(ms[1..]);
      assert SlotSizes(FileSlots(ms))[1..] == SlotSizes(FileSlots(ms[1..]));
      assert PositiveFiles(ms) ==> PositiveFiles(ms[1..]);
    }
  }

  lemma {:induction false} TextTotal(ms: seq<TextMetadata>)
    ensures Total(SlotSizes(TextSlots(ms))) == TextSizes(ms)
    ensures PositiveTexts(ms) ==> NotNegative(SlotSizes(TextSlots(ms)))
  {
    if ms != [] {
      TextTotal(ms[1..]);
      assert SlotSizes(TextSlots(ms))[1..] == SlotSizes(TextSlots(ms[1..]));
      assert PositiveTexts(ms) ==> PositiveTexts(ms[1..]);
    }
  }

  lemma {:induction false} WifiTotal(ms: seq<WifiMetadata>)
    ensures Total(SlotSizes(WifiSlots(ms))) == SsidLengths(ms)
    ensures NotNegative(SlotSizes(WifiSlots(ms)))
  {
    if ms != [] {
      WifiTotal(ms[1..]);
      assert SlotSizes(WifiSlots(ms))[1..] == SlotSizes(WifiSlots(ms[1..]));
    }
  }

  lemma {:induction false} ApkSlotSizes(app: App, index: nat)
    requires Aligned(app) && index <= |app.names|
    ensures SlotSizes(ApkSlots(app, index)) == app.sizes[index..|app.names|]
    decreases |app.names| - index
  {
    if index < |app.names| {
      ApkSlotSizes(app, index + 1);
      assert app.sizes[index..|app.names|] == [app.sizes[index]] + app.sizes[index + 1..|app.names|];
      assert SlotSizes(ApkSlots(app, index)) == [app.sizes[index]] + SlotSizes(ApkSlots(app, index + 1));
    }
  }

  lemma {:induction false} AppSlotSizes(apps: seq<App>)
    requires AllAligned(apps)
    ensures SlotSizes(AppSlots(apps)) == ApkSizes(apps)
  {
    if apps != [] {
      ApkSlotSizes(apps[0], 0);
      AppSlotSizes(apps[1..]);
      assert SlotSizes(AppSlots(apps)) == SlotSizes(ApkSlots(apps[0], 0)) + SlotSizes(AppSlots(apps[1..]));
    }
  }

  lemma {:induction false} EntrySizes(slots: seq<Slot>, random: nat -> int)
    ensures forall i :: 0 <= i < |slots| ==> Held(Entries(slots, random, 0))[i].size == slots[i].size
  {
    forall i | 0 <= i < |slots| ensures Held(Entries(slots, random, 0))[i].size == slots[i].size {
      EntryAt(slots, random, 0, i);
    }
  }

  lemma SizesOfItems(c: Container)
    ensures |Sizes(c)| == |Items(c)| && forall i :: 0 <= i < |Items(c)| ==> Sizes(c)[i] == Items(c)[i].size
  {
  }

  lemma AcceptedSizes(f: Frame, random: nat -> int)
    requires Random(random) && AllAligned(f.apps) && Read(f, random).1 == None
    ensures Sizes(Read(f, random).0.container) == SlotSizes(Slots(f))
  {
    AcceptedEntries(f, random);
    SizesOfItems(Read(f, random).0.container);
    EntrySizes(Slots(f), random);
  }

  lemma {:induction false} FourParts(a: seq<int>, b: seq<int>, c: seq<int>, d: seq<int>)
    requires NotNegative(a) && NotNegative(c) && NotNegative(d)
    requires Total(a) <= INT64_MAX
    ensures StaysWithin(0, a + b + c + d) <==>
            StaysWithin(Total(a), b) && Total(a) + Total(b) + Total(c) + Total(d) <= INT64_MAX
  {
    StaysWithinMore(0, a + b + c, d);
    ThreeParts(a, b, c);
    GrowingSum(0, a);
    EndsWithin(Total(a), b);
    if InInt64(Total(a) + Total(b)) {
      GrowingSum(Total(a) + Total(b), c);
      if InInt64(Total(a) + Total(b) + Total(c)) {
        GrowingSum(Total(a) + Total(b) + Total(c), d);
      } else {
        GrowingSum(0, d);
      }
    }
  }

  lemma {:induction false} EndsWithin(sum: int, sizes: seq<int>)
    ensures StaysWithin(sum, sizes) ==> InInt64(sum + Total(sizes))
    decreases sizes
  {
    if sizes != [] {
      EndsWithin(sum + sizes[0], sizes[1..]);
    }
  }

  lemma SlotSizesMore(a: seq<Slot>, b: seq<Slot>, c: seq<Slot>, d: seq<Slot>)
    ensures SlotSizes(a + b + c + d) == SlotSizes(a) + SlotSizes(b) + SlotSizes(c) + SlotSizes(d)
  {
  }

  // Main result: for every accepted frame the attachments' total is computed without overflow exactly when the
  // apk sizes, added to the file sizes one by one, stay within 64 bits and everything together fits.
  lemma TotalFitsIff(f: Frame, random: nat -> int)
    requires Random(random) && Read(f, random).1 == None
    ensures AllAligned(f.apps)
    ensures StaysWithin(0, Sizes(Read(f, random).0.container)) <==>
            && StaysWithin(FileSizes(f.files), ApkSizes(f.apps))
            && FileSizes(f.files) + Total(ApkSizes(f.apps)) + TextSizes(f.texts) + SsidLengths(f.wifis) <= INT64_MAX
  {
    AcceptedIff(f, random);
    AcceptedSizes(f, random);
    AppsReadIff(START, f.apps, random);
    var a, b, c, d := FileSlots(f.files), AppSlots(f.apps), TextSlots(f.texts), WifiSlots(f.wifis);
    FileTotal(f.files);
    AppSlotSizes(f.apps);
    TextTotal(f.texts);
    WifiTotal(f.wifis);
    SlotSizesMore(a, b, c, d);
    FourParts(SlotSizes(a), SlotSizes(b), SlotSizes(c), SlotSizes(d));
  }

  // Text sizes are not guarded: an accepted frame of one file and one text overflows the total.
  lemma TextSizesEscapeTheGuard(random: nat -> int)
    requires Random(random)
    ensures var f := Frame([FileMetadata(File(1, INT64_MAX, "", "", 0, ""), 11)], [],
                           [TextMetadata(Text(2, 0, "", 1), 22)], []);
            Read(f, random).1 == None && !StaysWithin(0, Sizes(Read(f, random).0.container))
  {
    var f := Frame([FileMetadata(File(1, INT64_MAX, "", "", 0, ""), 11)], [],
                   [TextMetadata(Text(2, 0, "", 1), 22)], []);
    assert f.files[1..] == [] && FileSizes(f.files) == INT64_MAX + FileSizes(f.files[1..]);
    assert f.texts[1..] == [] && TextSizes(f.texts) == 1 + TextSizes(f.texts[1..]);
    AcceptedIff(f, random);
    TotalFitsIff(f, random);
  }

  // Nor are apk sizes, which may be negative: what is checked is the size their app declares.
  lemma ApkSizesEscapeTheGuard(random: nat -> int)
    requires Random(random)
    ensures var f := Frame([], [App(1, ["a", "b", "c"], [INT64_MAX, INT64_MAX, -5], [11, 22, 33])], [], []);
            Read(f, random).1 == None && !StaysWithin(0, Sizes(Read(f, random).0.container))
  {
    var app := App(1, ["a", "b", "c"], [INT64_MAX, INT64_MAX, -5], [11, 22, 33]);
    var f := Frame([], [app], [], []);
    assert f.apps[1..] == [] && AppSizes(f.apps) == 1 + AppSizes(f.apps[1..]);
    assert ApkCount(f.apps) == 3 + ApkCount(f.apps[1..]);
    AcceptedIff(f, random);
    TotalFitsIff(f, random);
    assert ApkSizes(f.apps) == [INT64_MAX, INT64_MAX, -5] + ApkSizes(f.apps[1..]) == [INT64_MAX, INT64_MAX, -5];
    assert [INT64_MAX, INT64_MAX, -5][1..] == [INT64_MAX, -5];
    assert !StaysWithin(INT64_MAX, [INT64_MAX, -5]);
  }
}
