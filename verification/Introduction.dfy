/** The introduction frame: how sharing/outgoing_share_session.cc fills it from its attachments and how
    sharing/incoming_share_session.cc rebuilds attachments and the attachment-to-payload map from it.
 */
module Introductions {
  import opened Wrappers

  const INT64_MAX := 0x7FFF_FFFF_FFFF_FFFF

  type Int64 = x: int | -INT64_MAX - 1 <= x <= INT64_MAX

  datatype File = File(id: Int64, size: Int64, name: string, mimeType: string, kind: int, parentFolder: string)

  datatype Text = Text(id: Int64, kind: int, title: string, size: Int64)

  datatype Wifi = Wifi(id: Int64, ssid: string, securityType: int)

  datatype Container = Container(files: seq<File>, texts: seq<Text>, wifis: seq<Wifi>) {
    predicate HasAttachments() { files != [] || texts != [] || wifis != [] }
  }

  const EMPTY := Container([], [], [])

  // The parts of the frame; each carries the attachment's fields and its payload id.
  datatype FileMetadata = FileMetadata(file: File, payloadId: Int64)

  datatype TextMetadata = TextMetadata(text: Text, payloadId: Int64)

  datatype WifiMetadata = WifiMetadata(wifi: Wifi, payloadId: Int64)

  // One file attachment for each name, with the size and payload at the same position.
  datatype App = App(size: Int64, names: seq<string>, sizes: seq<Int64>, payloadIds: seq<Int64>)

  datatype Frame = Frame(files: seq<FileMetadata>, apps: seq<App>, texts: seq<TextMetadata>, wifis: seq<WifiMetadata>)

  // OutOfBounds stands for undefined behaviour: an app's lists are indexed without comparing their lengths.
  datatype Refusal = UnsupportedAttachmentType | NotEnoughSpace | OutOfBounds

  const ANDROID_APP := 3

  // ---------------------------------------------------------------- filling the frame

  function FillFiles(files: seq<File>, ids: seq<Int64>): (r: seq<FileMetadata>)
    requires |files| == |ids|
    ensures |r| == |files|
  {
    if files == [] then [] else [FileMetadata(files[0], ids[0])] + FillFiles(files[1..], ids[1..])
  }

  function FillTexts(texts: seq<Text>, ids: seq<Int64>): (r: seq<TextMetadata>)
    requires |texts| == |ids|
    ensures |r| == |texts|
  {
    if texts == [] then [] else [TextMetadata(texts[0], ids[0])] + FillTexts(texts[1..], ids[1..])
  }

  function FillWifis(wifis: seq<Wifi>, ids: seq<Int64>): (r: seq<WifiMetadata>)
    requires |wifis| == |ids|
    ensures |r| == |wifis|
  {
    if wifis == [] then [] else [WifiMetadata(wifis[0], ids[0])] + FillWifis(wifis[1..], ids[1..])
  }

  datatype Payloads = Payloads(files: seq<Int64>, texts: seq<Int64>, wifis: seq<Int64>)

  function Fill(c: Container, p: Payloads): Option<Frame> {
    if !c.HasAttachments() then None
    else if |p.files| != |c.files| || |p.texts| != |c.texts| || |p.wifis| != |c.wifis| then None
    else Some(Frame(FillFiles(c.files, p.files), [], FillTexts(c.texts, p.texts), FillWifis(c.wifis, p.wifis)))
  }

  // ---------------------------------------------------------------- reading it

  /** The session while a frame is read: what it holds, the running sum of file sizes and how many random ids
      were drawn. An attachment constructed with id 0 gets a random one. */
  datatype Reading = Reading(container: Container, payloadOf: map<int, int>, sum: int, drawn: nat)

  function Id(id: Int64, random: nat -> int, drawn: nat): int { if id == 0 then random(drawn) else id }

  function Drawn(id: Int64, drawn: nat): nat { if id == 0 then drawn + 1 else drawn }

  ghost predicate Random(random: nat -> int) { forall k: nat :: 0 < random(k) < INT64_MAX }

  // The payload is recorded under the id in the frame, even when that is 0.
  function AddFile(s: Reading, m: FileMetadata, random: nat -> int): Reading
    requires Random(random)
  {
    s.(container := s.container.(files := s.container.files + [m.file.(id := Id(m.file.id, random, s.drawn))]),
       payloadOf := s.payloadOf[m.file.id := m.payloadId], drawn := Drawn(m.file.id, s.drawn))
  }

  // Container::Clear; the payload map stays.
  function Clear(s: Reading): Reading { s.(container := EMPTY) }

  function ReadFiles(s: Reading, ms: seq<FileMetadata>, random: nat -> int): (Reading, Option<Refusal>)
    requires Random(random)
    decreases |ms|
  {
    if ms == [] then (s, None)
    else if ms[0].file.size <= 0 then (s, Some(UnsupportedAttachmentType))
    else
      var s1 := AddFile(s, ms[0], random);
      if INT64_MAX - ms[0].file.size < s1.sum then (Clear(s1), Some(NotEnoughSpace))
      else ReadFiles(s1.(sum := s1.sum + ms[0].file.size), ms[1..], random)
  }

  // Each apk becomes a file attachment with an id of its own, under which its payload is recorded.
  function AddApk(s: Reading, name: string, size: Int64, payloadId: Int64, random: nat -> int): Reading
    requires Random(random)
  {
    var file := File(random(s.drawn), size, name, "", ANDROID_APP, "");
    s.(container := s.container.(files := s.container.files + [file]),
       payloadOf := s.payloadOf[random(s.drawn) := payloadId], drawn := s.drawn + 1)
  }

  function AddApks(s: Reading, app: App, index: nat, random: nat -> int): (Reading, Option<Refusal>)
    requires Random(random) && index <= |app.names|
    decreases |app.names| - index
  {
    if index == |app.names| then (s, None)
    else if index >= |app.sizes| || index >= |app.payloadIds| then (s, Some(OutOfBounds))
    else
      var s1 := AddApk(s, app.names[index], app.sizes[index], app.payloadIds[index], random);
      AddApks(s1, app, index + 1, random)
  }

  function ReadApps(s: Reading, apps: seq<App>, random: nat -> int): (Reading, Option<Refusal>)
    requires Random(random)
    decreases |apps|
  {
    if apps == [] then (s, None)
    else if apps[0].size <= 0 then (s, Some(UnsupportedAttachmentType))
    else if INT64_MAX - apps[0].size < s.sum then (Clear(s), Some(NotEnoughSpace))
    else
      var (s1, r) := AddApks(s, apps[0], 0, random);
      if r.Some? then (s1, r) else ReadApps(s1.(sum := s1.sum + apps[0].size), apps[1..], random)
  }

  function AddText(s: Reading, m: TextMetadata, random: nat -> int): Reading
    requires Random(random)
  {
    s.(container := s.container.(texts := s.container.texts + [m.text.(id := Id(m.text.id, random, s.drawn))]),
       payloadOf := s.payloadOf[m.text.id := m.payloadId], drawn := Drawn(m.text.id, s.drawn))
  }

  function ReadTexts(s: Reading, ms: seq<TextMetadata>, random: nat -> int): (Reading, Option<Refusal>)
    requires Random(random)
    decreases |ms|
  {
    if ms == [] then (s, None)
    else if ms[0].text.size <= 0 then (s, Some(UnsupportedAttachmentType))
    else ReadTexts(AddText(s, ms[0], random), ms[1..], random)
  }

  function AddWifi(s: Reading, m: WifiMetadata, random: nat -> int): Reading
    requires Random(random)
  {
    s.(container := s.container.(wifis := s.container.wifis + [m.wifi.(id := Id(m.wifi.id, random, s.drawn))]),
       payloadOf := s.payloadOf[m.wifi.id := m.payloadId], drawn := Drawn(m.wifi.id, s.drawn))
  }

  function ReadWifis(s: Reading, ms: seq<WifiMetadata>, random: nat -> int): Reading
    requires Random(random)
    decreases |ms|
  {
    if ms == [] then s else ReadWifis(AddWifi(s, ms[0], random), ms[1..], random)
  }

  function ReadFrom(s: Reading, f: Frame, random: nat -> int): (Reading, Option<Refusal>)
    requires Random(random)
  {
    var (s1, r1) := ReadFiles(s, f.files, random);
    if r1.Some? then (s1, r1)
    else
      var (s2, r2) := ReadApps(s1, f.apps, random);
      if r2.Some? then (s2, r2)
      else
        var (s3, r3) := ReadTexts(s2, f.texts, random);
        if r3.Some? then (s3, r3)
        else
          var s4 := ReadWifis(s3, f.wifis, random);
          if s4.container.HasAttachments() then (s4, None) else (s4, Some(UnsupportedAttachmentType))
  }

  const START := Reading(EMPTY, map[], 0, 0)

  // Read by a session that holds nothing yet.
  function Read(f: Frame, random: nat -> int): (Reading, Option<Refusal>)
    requires Random(random)
  {
    ReadFrom(START, f, random)
  }

  // ---------------------------------------------------------------- the overflow guard

  function FileSizes(ms: seq<FileMetadata>): int {
    if ms == [] then 0 else ms[0].file.size + FileSizes(ms[1..])
  }

  function AppSizes(apps: seq<App>): int {
    if apps == [] then 0 else apps[0].size + AppSizes(apps[1..])
  }

  ghost predicate PositiveFiles(ms: seq<FileMetadata>) { forall i :: 0 <= i < |ms| ==> ms[i].file.size > 0 }

  ghost predicate PositiveApps(apps: seq<App>) { forall i :: 0 <= i < |apps| ==> apps[i].size > 0 }

  ghost predicate PositiveTexts(ms: seq<TextMetadata>) { forall i :: 0 <= i < |ms| ==> ms[i].text.size > 0 }

  // The running sum stays within 64 bits and the files are read exactly when their sizes are positive and
  // their total fits.
  lemma {:induction false} FilesReadIff(s: Reading, ms: seq<FileMetadata>, random: nat -> int)
    requires Random(random) && 0 <= s.sum <= INT64_MAX
    ensures 0 <= ReadFiles(s, ms, random).0.sum <= INT64_MAX
    ensures ReadFiles(s, ms, random).1 == None <==> PositiveFiles(ms) && s.sum + FileSizes(ms) <= INT64_MAX
    ensures ReadFiles(s, ms, random).1 == None ==> ReadFiles(s, ms, random).0.sum == s.sum + FileSizes(ms)
    ensures PositiveFiles(ms) ==> FileSizes(ms) >= 0
    decreases |ms|
  {
    if ms != [] {
      var s1 := AddFile(s, ms[0], random);
      if ms[0].file.size > 0 {
        assert PositiveFiles(ms) <==> PositiveFiles(ms[1..]) by {
          assert ms == [ms[0]] + ms[1..];
        }
        if INT64_MAX - ms[0].file.size >= s1.sum {
          FilesReadIff(s1.(sum := s1.sum + ms[0].file.size), ms[1..], random);
        } else {
          FilesReadIff(s.(sum := 0), ms[1..], random);
        }
      }
    }
  }

  // Every name has a size and a payload.
  predicate Aligned(app: App) { |app.names| <= |app.sizes| && |app.names| <= |app.payloadIds| }

  ghost predicate AllAligned(apps: seq<App>) { forall i :: 0 <= i < |apps| ==> Aligned(apps[i]) }

  lemma {:induction false} ApksReadIff(s: Reading, app: App, index: nat, random: nat -> int)
    requires Random(random) && index <= |app.names|
    ensures AddApks(s, app, index, random).0.sum == s.sum
    ensures AddApks(s, app, index, random).1
         == (if index == |app.names| || Aligned(app) then None else Some(OutOfBounds))
    decreases |app.names| - index
  {
    if index < |app.names| && index < |app.sizes| && index < |app.payloadIds| {
      var s1 := AddApk(s, app.names[index], app.sizes[index], app.payloadIds[index], random);
      ApksReadIff(s1, app, index + 1, random);
    }
  }

  lemma HeadAndRest(apps: seq<App>)
    requires apps != []
    ensures PositiveApps(apps) <==> apps[0].size > 0 && PositiveApps(apps[1..])
    ensures AllAligned(apps) <==> Aligned(apps[0]) && AllAligned(apps[1..])
  {
    assert apps == [apps[0]] + apps[1..];
  }

  lemma {:induction false} AppsReadIff(s: Reading, apps: seq<App>, random: nat -> int)
    requires Random(random) && 0 <= s.sum <= INT64_MAX
    ensures 0 <= ReadApps(s, apps, random).0.sum <= INT64_MAX
    ensures ReadApps(s, apps, random).1 == None <==>
            PositiveApps(apps) && AllAligned(apps) && s.sum + AppSizes(apps) <= INT64_MAX
    ensures PositiveApps(apps) ==> AppSizes(apps) >= 0
    decreases |apps|
  {
    if apps != [] {
      HeadAndRest(apps);
      if apps[0].size > 0 {
        ApksReadIff(s, apps[0], 0, random);
        if INT64_MAX - apps[0].size >= s.sum {
          AppsReadIff(AddApks(s, apps[0], 0, random).0.(sum := s.sum + apps[0].size), apps[1..], random);
        } else {
          AppsReadIff(s.(sum := 0), apps[1..], random);
        }
      }
    }
  }

  // App j is the first whose lists do not match, and nothing before it is refused.
  ghost predicate Misread(sum: int, apps: seq<App>, j: nat) {
    && j < |apps| && !Aligned(apps[j])
    && AllAligned(apps[..j]) && PositiveApps(apps[..j + 1]) && sum + AppSizes(apps[..j + 1]) <= INT64_MAX
  }

  lemma MisreadRest(sum: int, apps: seq<App>, j: nat)
    requires 0 < j < |apps|
    ensures Misread(sum, apps, j) <==>
            apps[0].size > 0 && Aligned(apps[0]) && Misread(sum + apps[0].size, apps[1..], j - 1)
  {
    HeadAndRest(apps[..j]);
    HeadAndRest(apps[..j + 1]);
    assert apps[..j][1..] == apps[1..][..j - 1] && apps[..j + 1][1..] == apps[1..][..j];
  }

  // An app's lists are read past their end exactly when some app reached by the reading misses a size or payload.
  lemma {:induction false} AppsMisreadIff(s: Reading, apps: seq<App>, random: nat -> int)
    requires Random(random) && 0 <= s.sum <= INT64_MAX
    ensures ReadApps(s, apps, random).1 == Some(OutOfBounds) <==> exists j :: Misread(s.sum, apps, j)
    decreases |apps|
  {
    if apps != [] {
      var sum := s.sum + apps[0].size;
      ApksReadIff(s, apps[0], 0, random);
      assert apps[..1] == [apps[0]] && AppSizes(apps[..1]) == apps[0].size + AppSizes([]);
      assert Misread(s.sum, apps, 0) <==> apps[0].size > 0 && sum <= INT64_MAX && !Aligned(apps[0]);
      forall j | 0 < j < |apps|
        ensures Misread(s.sum, apps, j) <==> apps[0].size > 0 && Aligned(apps[0]) && Misread(sum, apps[1..], j - 1)
      {
        MisreadRest(s.sum, apps, j);
      }
      if apps[0].size > 0 && sum <= INT64_MAX && Aligned(apps[0]) {
        AppsMisreadIff(AddApks(s, apps[0], 0, random).0.(sum := sum), apps[1..], random);
        if j: nat :| Misread(sum, apps[1..], j) {
          assert Misread(s.sum, apps, j + 1);
        }
      } else if j: nat :| 0 < j && Misread(s.sum, apps, j) {
        AppSizesGrow(apps[..j + 1]);
      }
    }
  }

  lemma {:induction false} AppSizesGrow(apps: seq<App>)
    requires PositiveApps(apps)
    ensures AppSizes(apps) >= if apps == [] then 0 else apps[0].size
  {
    if apps != [] {
      HeadAndRest(apps);
      AppSizesGrow(apps[1..]);
    }
  }

  lemma {:induction false} TextsReadIff(s: Reading, ms: seq<TextMetadata>, random: nat -> int)
    requires Random(random)
    ensures ReadTexts(s, ms, random).1 == None <==> PositiveTexts(ms)
    ensures ReadTexts(s, ms, random).0.sum == s.sum
    decreases |ms|
  {
    if ms != [] && ms[0].text.size > 0 {
      TextsReadIff(AddText(s, ms[0], random), ms[1..], random);
      assert PositiveTexts(ms) <==> PositiveTexts(ms[1..]) by {
        assert ms == [ms[0]] + ms[1..];
      }
    }
  }

  // ---------------------------------------------------------------- what is rebuilt

  ghost predicate SameFile(got: File, sent: File) {
    got == sent.(id := got.id) && (if sent.id != 0 then got.id == sent.id else got.id > 0)
  }

  ghost predicate SameText(got: Text, sent: Text) {
    got == sent.(id := got.id) && (if sent.id != 0 then got.id == sent.id else got.id > 0)
  }

  ghost predicate SameWifi(got: Wifi, sent: Wifi) {
    got == sent.(id := got.id) && (if sent.id != 0 then got.id == sent.id else got.id > 0)
  }

  lemma {:induction false} FilesRebuilt(s: Reading, ms: seq<FileMetadata>, random: nat -> int)
    requires Random(random) && ReadFiles(s, ms, random).1 == None
    ensures var c, c1 := s.container, ReadFiles(s, ms, random).0.container;
            && c1 == c.(files := c1.files) && |c1.files| == |c.files| + |ms| && c.files <= c1.files
            && forall i :: 0 <= i < |ms| ==> SameFile(c1.files[|c.files| + i], ms[i].file)
    decreases |ms|
  {
    if ms != [] {
      var s0 := AddFile(s, ms[0], random);
      var s1 := s0.(sum := s0.sum + ms[0].file.size);
      FilesRebuilt(s1, ms[1..], random);
      var c, c1 := s.container, ReadFiles(s, ms, random).0.container;
      assert s1.container.files[|c.files|] == c1.files[|c.files|];
      forall i | 0 <= i < |ms| ensures SameFile(c1.files[|c.files| + i], ms[i].file) {
        if i > 0 {
          assert SameFile(c1.files[|s1.container.files| + (i - 1)], ms[1..][i - 1].file);
        }
      }
    }
  }

  lemma {:induction false} TextsRebuilt(s: Reading, ms: seq<TextMetadata>, random: nat -> int)
    requires Random(random) && ReadTexts(s, ms, random).1 == None
    ensures var c, c1 := s.container, ReadTexts(s, ms, random).0.container;
            && c1 == c.(texts := c1.texts) && |c1.texts| == |c.texts| + |ms| && c.texts <= c1.texts
            && forall i :: 0 <= i < |ms| ==> SameText(c1.texts[|c.texts| + i], ms[i].text)
    decreases |ms|
  {
    if ms != [] {
      var s1 := AddText(s, ms[0], random);
      TextsRebuilt(s1, ms[1..], random);
      var c, c1 := s.container, ReadTexts(s, ms, random).0.container;
      assert s1.container.texts[|c.texts|] == c1.texts[|c.texts|];
      forall i | 0 <= i < |ms| ensures SameText(c1.texts[|c.texts| + i], ms[i].text) {
        if i > 0 {
          assert SameText(c1.texts[|s1.container.texts| + (i - 1)], ms[1..][i - 1].text);
        }
      }
    }
  }

  lemma {:induction false} WifisRebuilt(s: Reading, ms: seq<WifiMetadata>, random: nat -> int)
    requires Random(random)
    ensures var c, c1 := s.container, ReadWifis(s, ms, random).container;
            && c1 == c.(wifis := c1.wifis) && |c1.wifis| == |c.wifis| + |ms| && c.wifis <= c1.wifis
            && forall i :: 0 <= i < |ms| ==> SameWifi(c1.wifis[|c.wifis| + i], ms[i].wifi)
    decreases |ms|
  {
    if ms != [] {
      var s1 := AddWifi(s, ms[0], random);
      WifisRebuilt(s1, ms[1..], random);
      var c, c1 := s.container, ReadWifis(s, ms, random).container;
      assert s1.container.wifis[|c.wifis|] == c1.wifis[|c.wifis|];
      forall i | 0 <= i < |ms| ensures SameWifi(c1.wifis[|c.wifis| + i], ms[i].wifi) {
        if i > 0 {
          assert SameWifi(c1.wifis[|s1.container.wifis| + (i - 1)], ms[1..][i - 1].wifi);
        }
      }
    }
  }

  // ---------------------------------------------------------------- round trip

  lemma {:induction false} FilledFiles(files: seq<File>, ids: seq<Int64>)
    requires |files| == |ids|
    ensures forall i :: 0 <= i < |files| ==> FillFiles(files, ids)[i] == FileMetadata(files[i], ids[i])
  {
    if files != [] {
      FilledFiles(files[1..], ids[1..]);
    }
  }

  lemma {:induction false} FilledTexts(texts: seq<Text>, ids: seq<Int64>)
    requires |texts| == |ids|
    ensures forall i :: 0 <= i < |texts| ==> FillTexts(texts, ids)[i] == TextMetadata(texts[i], ids[i])
  {
    if texts != [] {
      FilledTexts(texts[1..], ids[1..]);
    }
  }

  lemma {:induction false} FilledWifis(wifis: seq<Wifi>, ids: seq<Int64>)
    requires |wifis| == |ids|
    ensures forall i :: 0 <= i < |wifis| ==> FillWifis(wifis, ids)[i] == WifiMetadata(wifis[i], ids[i])
  {
    if wifis != [] {
      FilledWifis(wifis[1..], ids[1..]);
    }
  }

  ghost predicate NoZeroIds(c: Container) {
    && (forall i :: 0 <= i < |c.files| ==> c.files[i].id != 0)
    && (forall i :: 0 <= i < |c.texts| ==> c.texts[i].id != 0)
    && (forall i :: 0 <= i < |c.wifis| ==> c.wifis[i].id != 0)
  }

  // What the receiver accepts: positive sizes, a total of files and declared apps within 64 bits and, for every
  // apk, a size and a payload.
  ghost predicate Acceptable(f: Frame) {
    && PositiveFiles(f.files) && PositiveApps(f.apps) && PositiveTexts(f.texts)
    && AllAligned(f.apps) && FileSizes(f.files) + AppSizes(f.apps) <= INT64_MAX
  }

  lemma {:induction false} AddApksGrow(s: Reading, app: App, index: nat, random: nat -> int)
    requires Random(random) && index <= |app.names| && AddApks(s, app, index, random).1 == None
    ensures var c, c1 := s.container, AddApks(s, app, index, random).0.container;
            && c1 == c.(files := c1.files) && |c1.files| == |c.files| + |app.names| - index
    decreases |app.names| - index
  {
    if index < |app.names| {
      var s1 := AddApk(s, app.names[index], app.sizes[index], app.payloadIds[index], random);
      AddApksGrow(s1, app, index + 1, random);
    }
  }

  function ApkCount(apps: seq<App>): nat {
    if apps == [] then 0 else |apps[0].names| + ApkCount(apps[1..])
  }

  lemma {:induction false} ReadAppsGrow(s: Reading, apps: seq<App>, random: nat -> int)
    requires Random(random) && ReadApps(s, apps, random).1 == None
    ensures var c, c1 := s.container, ReadApps(s, apps, random).0.container;
            && c1 == c.(files := c1.files) && |c1.files| == |c.files| + ApkCount(apps)
    decreases |apps|
  {
    if apps != [] {
      var s1 := AddApks(s, apps[0], 0, random).0;
      AddApksGrow(s, apps[0], 0, random);
      ReadAppsGrow(s1.(sum := s1.sum + apps[0].size), apps[1..], random);
    }
  }

  predicate HasContent(f: Frame) { f.files != [] || ApkCount(f.apps) > 0 || f.texts != [] || f.wifis != [] }

  // Main result: a frame, whatever it holds, is accepted exactly when its sizes are positive, its file and
  // app sizes fit 64 bits together and it brings some attachment.
  lemma AcceptedIff(f: Frame, random: nat -> int)
    requires Random(random)
    ensures Read(f, random).1 == None <==> Acceptable(f) && HasContent(f)
  {
    FilesReadIff(START, f.files, random);
    var (s1, r1) := ReadFiles(START, f.files, random);
    if r1 == None {
      FilesRebuilt(START, f.files, random);
      AppsReadIff(s1, f.apps, random);
      var (s2, r2) := ReadApps(s1, f.apps, random);
      if r2 == None {
        ReadAppsGrow(s1, f.apps, random);
        TextsReadIff(s2, f.texts, random);
        var (s3, r3) := ReadTexts(s2, f.texts, random);
        if r3 == None {
          TextsRebuilt(s2, f.texts, random);
          WifisRebuilt(s3, f.wifis, random);
        }
      }
    } else {
      AppsReadIff(START, f.apps, random);
    }
  }

  // The reading leaves defined behaviour exactly when it reaches an app with more names than sizes or payloads.
  lemma MisreadIff(f: Frame, random: nat -> int)
    requires Random(random)
    ensures Read(f, random).1 == Some(OutOfBounds) <==>
            && PositiveFiles(f.files) && FileSizes(f.files) <= INT64_MAX
            && exists j :: Misread(FileSizes(f.files), f.apps, j)
  {
    FilesReadIff(START, f.files, random);
    FilesNeverMisread(START, f.files, random);
    var (s1, r1) := ReadFiles(START, f.files, random);
    if r1 == None {
      AppsMisreadIff(s1, f.apps, random);
      var (s2, r2) := ReadApps(s1, f.apps, random);
      if r2 == None {
        TextsReadIff(s2, f.texts, random);
        TextsNeverMisread(s2, f.texts, random);
      }
    }
  }

  // It does happen: an app of one name without a size or payload.
  lemma MisreadIsReachable(random: nat -> int)
    requires Random(random)
    ensures Read(Frame([], [App(1, ["a"], [], [])], [], []), random).1 == Some(OutOfBounds)
  {
    var f := Frame([], [App(1, ["a"], [], [])], [], []);
    assert f.apps[..1] == f.apps && f.apps[1..] == [] && AppSizes(f.apps) == 1 + AppSizes(f.apps[1..]);
    assert Misread(FileSizes(f.files), f.apps, 0);
    MisreadIff(f, random);
  }

  lemma {:induction false} FilesNeverMisread(s: Reading, ms: seq<FileMetadata>, random: nat -> int)
    requires Random(random)
    ensures ReadFiles(s, ms, random).1 != Some(OutOfBounds)
    decreases |ms|
  {
    if ms != [] {
      var s1 := AddFile(s, ms[0], random);
      FilesNeverMisread(s1.(sum := s1.sum + ms[0].file.size), ms[1..], random);
    }
  }

  lemma {:induction false} TextsNeverMisread(s: Reading, ms: seq<TextMetadata>, random: nat -> int)
    requires Random(random)
    ensures ReadTexts(s, ms, random).1 in {None, Some(UnsupportedAttachmentType)}
    decreases |ms|
  {
    if ms != [] {
      TextsNeverMisread(AddText(s, ms[0], random), ms[1..], random);
    }
  }

  ghost predicate SameShape(got: Container, sent: Container) {
    && |got.files| == |sent.files| && |got.texts| == |sent.texts| && |got.wifis| == |sent.wifis|
    && (forall i :: 0 <= i < |got.files| ==> SameFile(got.files[i], sent.files[i]))
    && (forall i :: 0 <= i < |got.texts| ==> SameText(got.texts[i], sent.texts[i]))
    && (forall i :: 0 <= i < |got.wifis| ==> SameWifi(got.wifis[i], sent.wifis[i]))
  }

  lemma AcceptedShape(c: Container, p: Payloads, random: nat -> int)
    requires Random(random) && Fill(c, p).Some? && Read(Fill(c, p).value, random).1 == None
    ensures SameShape(Read(Fill(c, p).value, random).0.container, c)
  {
    var f := Fill(c, p).value;
    var s1 := ReadFiles(START, f.files, random).0;
    var s3 := ReadTexts(s1, f.texts, random).0;
    FilesRebuilt(START, f.files, random);
    TextsRebuilt(s1, f.texts, random);
    WifisRebuilt(s3, f.wifis, random);
    FilledFiles(c.files, p.files);
    FilledTexts(c.texts, p.texts);
    FilledWifis(c.wifis, p.wifis);
  }

  lemma ReadFilled(c: Container, p: Payloads, random: nat -> int)
    requires Random(random) && Fill(c, p).Some?
    ensures var f := Fill(c, p).value; var (s, refusal) := Read(f, random);
            && (refusal == None <==> Acceptable(f))
            && (refusal == None ==> SameShape(s.container, c))
  {
    var f := Fill(c, p).value;
    AcceptedIff(f, random);
    if Read(f, random).1 == None {
      AcceptedShape(c, p, random);
    }
  }

  lemma SameShapeEqualsIff(got: Container, sent: Container)
    requires SameShape(got, sent)
    ensures got == sent <==> NoZeroIds(sent)
  {
    if NoZeroIds(sent) {
      assert got.files == sent.files && got.texts == sent.texts && got.wifis == sent.wifis;
    }
    if got == sent {
      assert forall i :: 0 <= i < |sent.files| ==> SameFile(got.files[i], sent.files[i]) && sent.files[i].id != 0;
      assert forall i :: 0 <= i < |sent.texts| ==> SameText(got.texts[i], sent.texts[i]) && sent.texts[i].id != 0;
      assert forall i :: 0 <= i < |sent.wifis| ==> SameWifi(got.wifis[i], sent.wifis[i]) && sent.wifis[i].id != 0;
    }
  }

  // Main result: a filled frame is accepted and rebuilds the very attachments, in order, exactly when no
  // id is 0, file and text sizes are positive and the files' total fits 64 bits.
  lemma RoundTripIff(c: Container, p: Payloads, random: nat -> int)
    requires Random(random) && Fill(c, p).Some?
    ensures var f := Fill(c, p).value;
            Read(f, random).1 == None && Read(f, random).0.container == c <==> Acceptable(f) && NoZeroIds(c)
  {
    ReadFilled(c, p, random);
    var f := Fill(c, p).value;
    if Acceptable(f) {
      SameShapeEqualsIff(Read(f, random).0.container, c);
    }
  }
}
