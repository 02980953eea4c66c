// The loops behind Introductions: FillIntroductionFrame (sharing/outgoing_share_session.cc) and
// ProcessIntroduction (sharing/incoming_share_session.cc).
module IntroductionSessions {
  import opened Wrappers
  import opened Introductions

  class OutgoingIntroduction {
    const container: Container
    const filePayloads: seq<Int64>
    const textPayloads: seq<Int64>
    const wifiCredentialsPayloads: seq<Int64>

    constructor (container: Container, payloads: Payloads)
      ensures this.container == container
      ensures Payloads(filePayloads, textPayloads, wifiCredentialsPayloads) == payloads
    {
      this.container := container;
      filePayloads, textPayloads, wifiCredentialsPayloads := payloads.files, payloads.texts, payloads.wifis;
    }

    // None stands for the result false.
    method FillIntroductionFrame() returns (introduction: Option<Frame>)
      ensures introduction == Fill(container, Payloads(filePayloads, textPayloads, wifiCredentialsPayloads))
    {
      if !container.HasAttachments() {
        return None;
      }
      if |filePayloads| != |container.files| || |textPayloads| != |container.texts|
         || |wifiCredentialsPayloads| != |container.wifis| {
        return None;
      }
      FilledFiles(container.files, filePayloads);
      FilledTexts(container.texts, textPayloads);
      FilledWifis(container.wifis, wifiCredentialsPayloads);
      var files: seq<FileMetadata> := [];
      for i := 0 to |container.files|
        invariant files == FillFiles(container.files, filePayloads)[..i]
      {
        files := files + [FileMetadata(container.files[i], filePayloads[i])];
      }
      var texts: seq<TextMetadata> := [];
      for i := 0 to |container.texts|
        invariant texts == FillTexts(container.texts, textPayloads)[..i]
      {
        texts := texts + [TextMetadata(container.texts[i], textPayloads[i])];
      }
      var wifis: seq<WifiMetadata> := [];
      for i := 0 to |container.wifis|
        invariant wifis == FillWifis(container.wifis, wifiCredentialsPayloads)[..i]
      {
        wifis := wifis + [WifiMetadata(container.wifis[i], wifiCredentialsPayloads[i])];
      }
      assert files == FillFiles(container.files, filePayloads);
      assert texts == FillTexts(container.texts, textPayloads);
      assert wifis == FillWifis(container.wifis, wifiCredentialsPayloads);
      introduction := Some(Frame(files, [], texts, wifis));
    }
  }

  class IncomingIntroduction {
    var container: Container
    var attachmentPayloadMap: map<int, int>
    // Random ids drawn so far.
    var drawn: nat

    constructor ()
      ensures container == EMPTY && attachmentPayloadMap == map[] && drawn == 0
    {
      container, attachmentPayloadMap, drawn := EMPTY, map[], 0;
    }

    ghost function State(sum: int): Reading
      reads this
    {
      Reading(container, attachmentPayloadMap, sum, drawn)
    }

    // The id of a new attachment.
    method NewId(id: Int64, random: nat -> int) returns (r: Int64)
      requires Random(random)
      modifies this`drawn
      ensures r == Id(id, random, old(drawn)) && drawn == Drawn(id, old(drawn))
    {
      if id != 0 {
        return id;
      }
      r := random(drawn);
      drawn := drawn + 1;
    }

    method ProcessIntroduction(frame: Frame, random: nat -> int) returns (refusal: Option<Refusal>)
      requires Random(random)
      modifies this
      ensures refusal == ReadFrom(old(State(0)), frame, random).1
      ensures State(ReadFrom(old(State(0)), frame, random).0.sum) == ReadFrom(old(State(0)), frame, random).0
    {
      var fileSizeSum := 0;
      refusal, fileSizeSum := ProcessFiles(frame.files, random, fileSizeSum);
      if refusal.Some? {
        return;
      }
      refusal, fileSizeSum := ProcessApps(frame.apps, random, fileSizeSum);
      if refusal.Some? {
        return;
      }
      refusal := ProcessTexts(frame.texts, random, fileSizeSum);
      if refusal.Some? {
        return;
      }
      ProcessWifis(frame.wifis, random, fileSizeSum);
      if !container.HasAttachments() {
        return Some(UnsupportedAttachmentType);
      }
      return None;
    }

    method ProcessFiles(files: seq<FileMetadata>, random: nat -> int, sum: int)
      returns (refusal: Option<Refusal>, fileSizeSum: int)
      requires Random(random)
      modifies this
      ensures (State(fileSizeSum), refusal) == ReadFiles(old(State(sum)), files, random)
    {
      fileSizeSum := sum;
      var todo := files;
      while todo != []
        invariant ReadFiles(State(fileSizeSum), todo, random) == ReadFiles(old(State(sum)), files, random)
        decreases |todo|
      {
        var m := todo[0];
        if m.file.size <= 0 {
          return Some(UnsupportedAttachmentType), fileSizeSum;
        }
        var id := NewId(m.file.id, random);
        container := container.(files := container.files + [m.file.(id := id)]);
        attachmentPayloadMap := attachmentPayloadMap[m.file.id := m.payloadId];
        if INT64_MAX - m.file.size < fileSizeSum {
          container := EMPTY;
          return Some(NotEnoughSpace), fileSizeSum;
        }
        fileSizeSum := fileSizeSum + m.file.size;
        todo := todo[1..];
      }
      refusal := None;
    }

    method ProcessApps(apps: seq<App>, random: nat -> int, sum: int)
      returns (refusal: Option<Refusal>, fileSizeSum: int)
      requires Random(random)
      modifies this
      ensures (State(fileSizeSum), refusal) == ReadApps(old(State(sum)), apps, random)
    {
      fileSizeSum := sum;
      var todo := apps;
      while todo != []
        invariant ReadApps(State(fileSizeSum), todo, random) == ReadApps(old(State(sum)), apps, random)
        decreases |todo|
      {
        var apk := todo[0];
        if apk.size <= 0 {
          return Some(UnsupportedAttachmentType), fileSizeSum;
        }
        if INT64_MAX - apk.size < fileSizeSum {
          container := EMPTY;
          return Some(NotEnoughSpace), fileSizeSum;
        }
        refusal := ProcessApkFiles(apk, random, fileSizeSum);
        if refusal.Some? {
          return;
        }
        fileSizeSum := fileSizeSum + apk.size;
        todo := todo[1..];
      }
      refusal := None;
    }

    // Indexing past the end of a list is undefined and ends the model's run.
    method ProcessApkFiles(apk: App, random: nat -> int, ghost sum: int) returns (refusal: Option<Refusal>)
      requires Random(random)
      modifies this
      ensures (State(sum), refusal) == AddApks(old(State(sum)), apk, 0, random)
    {
      for index := 0 to |apk.names|
        invariant AddApks(State(sum), apk, index, random) == AddApks(old(State(sum)), apk, 0, random)
      {
        if index >= |apk.sizes| || index >= |apk.payloadIds| {
          return Some(OutOfBounds);
        }
        var id := NewId(0, random);
        var file := File(id, apk.sizes[index], apk.names[index], "", ANDROID_APP, "");
        container := container.(files := container.files + [file]);
        attachmentPayloadMap := attachmentPayloadMap[id := apk.payloadIds[index]];
      }
      refusal := None;
    }

    method ProcessTexts(texts: seq<TextMetadata>, random: nat -> int, ghost sum: int) returns (refusal: Option<Refusal>)
      requires Random(random)
      modifies this
      ensures (State(sum), refusal) == ReadTexts(old(State(sum)), texts, random)
    {
      var todo := texts;
      while todo != []
        invariant ReadTexts(State(sum), todo, random) == ReadTexts(old(State(sum)), texts, random)
        decreases |todo|
      {
        var m := todo[0];
        if m.text.size <= 0 {
          return Some(UnsupportedAttachmentType);
        }
        var id := NewId(m.text.id, random);
        container := container.(texts := container.texts + [m.text.(id := id)]);
        attachmentPayloadMap := attachmentPayloadMap[m.text.id := m.payloadId];
        todo := todo[1..];
      }
      refusal := None;
    }

    method ProcessWifis(wifis: seq<WifiMetadata>, random: nat -> int, ghost sum: int)
      requires Random(random)
      modifies this
      ensures State(sum) == ReadWifis(old(State(sum)), wifis, random)
    {
      var todo := wifis;
      while todo != []
        invariant ReadWifis(State(sum), todo, random) == ReadWifis(old(State(sum)), wifis, random)
        decreases |todo|
      {
        var m := todo[0];
        var id := NewId(m.wifi.id, random);
        container := container.(wifis := container.wifis + [m.wifi.(id := id)]);
        attachmentPayloadMap := attachmentPayloadMap[m.wifi.id := m.payloadId];
        todo := todo[1..];
      }
    }
  }
}
