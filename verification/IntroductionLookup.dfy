/** Looking payloads up by the ids of the attachments rebuilt from an introduction frame
    (sharing/incoming_share_session.cc:283-372), and what a refused frame leaves recorded.
 */
module IntroductionLookup {
  import opened Wrappers
  import opened Introductions
  import opened IntroductionEntries

  // ---------------------------------------------------------------- who finds its payload

  // Looked up by its own id, every rebuilt attachment has the payload the frame gives it.
  ghost predicate EachFinds(f: Frame, s: Reading)
    requires AllAligned(f.apps)
  {
    && |Items(s.container)| == |Slots(f)|
    && forall i :: 0 <= i < |Slots(f)| ==> Finds(s.payloadOf, (Items(s.container)[i].id, Slots(f)[i].payload))
  }

  // No two attachments recorded under the same id, other than 0, have different payloads.
  ghost predicate KeysAgree(es: seq<Entry>) {
    forall i, j :: 0 <= i < j < |es| && es[i].recordedAs == es[j].recordedAs != 0 ==> es[i].payload == es[j].payload
  }

  // What was recorded under 0 is also recorded, by chance, under the id its attachment drew.
  ghost predicate StraysFound(es: seq<Entry>) {
    forall i :: 0 <= i < |es| && es[i].recordedAs == 0 ==> (es[i].item.id, es[i].payload) in Recorded(es)
  }

  lemma {:induction false} EntriesMatch(slots: seq<Slot>, random: nat -> int, drawn: nat)
    requires Random(random)
    ensures forall i :: 0 <= i < |slots| ==>
              var e := Entries(slots, random, drawn)[i];
              e.payload == slots[i].payload && e.item.id != 0 && (e.recordedAs != 0 ==> e.item.id == e.recordedAs)
  {
    forall i | 0 <= i < |slots|
      ensures var e := Entries(slots, random, drawn)[i];
              e.payload == slots[i].payload && e.item.id != 0 && (e.recordedAs != 0 ==> e.item.id == e.recordedAs)
    {
      EntryAt(slots, random, drawn, i);
    }
  }

  lemma AllFoundIff(es: seq<Entry>)
    requires forall i :: 0 <= i < |es| ==>
               es[i].item.id != 0 && (es[i].recordedAs != 0 ==> es[i].item.id == es[i].recordedAs)
    ensures (forall i :: 0 <= i < |es| ==> Finds(Assign(map[], Recorded(es)), (es[i].item.id, es[i].payload))) <==>
            KeysAgree(es) && StraysFound(es)
  {
    var pairs := Recorded(es);
    var m := Assign(map[], pairs);
    AssignFinds(pairs);
    if KeysAgree(es) && StraysFound(es) {
      forall i | 0 <= i < |es| ensures Finds(m, (es[i].item.id, es[i].payload)) {
        assert pairs[i] == (es[i].recordedAs, es[i].payload);
        var k :| 0 <= k < |pairs| && pairs[k] == (es[i].item.id, es[i].payload);
        forall j | 0 <= j < |pairs| && pairs[j].0 == pairs[k].0 ensures pairs[j].1 == pairs[k].1 {
          assert j < k || k < j || j == k;
        }
        FindsRecorded(pairs, k);
      }
    }
    if forall i :: 0 <= i < |es| ==> Finds(m, (es[i].item.id, es[i].payload)) {
      forall i, j | 0 <= i < j < |es| && es[i].recordedAs == es[j].recordedAs != 0
        ensures es[i].payload == es[j].payload
      {
        assert Finds(m, (es[i].item.id, es[i].payload)) && Finds(m, (es[j].item.id, es[j].payload));
      }
      forall i | 0 <= i < |es| && es[i].recordedAs == 0 ensures (es[i].item.id, es[i].payload) in pairs {
        assert Finds(m, (es[i].item.id, es[i].payload));
      }
    }
  }

  // Main result, for every accepted frame and whatever ids are drawn: every rebuilt attachment finds its own
  // payload exactly when ids that are given agree on it and what came without one happens to be found.
  lemma LookupIff(f: Frame, random: nat -> int)
    requires Random(random) && Read(f, random).1 == None
    ensures AllAligned(f.apps)
    ensures var es := Entries(Slots(f), random, 0);
            EachFinds(f, Read(f, random).0) <==> KeysAgree(es) && StraysFound(es)
  {
    AcceptedIff(f, random);
    var s, slots, es := Read(f, random).0, Slots(f), Entries(Slots(f), random, 0);
    AcceptedEntries(f, random);
    EntriesMatch(slots, random, 0);
    AllFoundIff(es);
    if EachFinds(f, s) {
      forall i | 0 <= i < |es| ensures Finds(s.payloadOf, (es[i].item.id, es[i].payload)) {
        assert Finds(s.payloadOf, (Items(s.container)[i].id, slots[i].payload));
      }
    }
  }

  // The ids that the slots draw are new: no two are equal and none is in the frame.
  ghost predicate Fresh(random: nat -> int, slots: seq<Slot>) {
    && (forall j: nat, k: nat :: j < k < Zeros(slots) ==> random(j) != random(k))
    && (forall k: nat, i :: k < Zeros(slots) && 0 <= i < |slots| ==> random(k) != slots[i].id)
  }

  // There are such ids for every frame whose own ids leave enough of them free at the top.
  lemma {:induction false} FreshIsPossible(slots: seq<Slot>, top: nat)
    requires forall i :: 0 <= i < |slots| ==> slots[i].id <= top
    requires 0 < top && top + Zeros(slots) < INT64_MAX
    ensures exists random: nat -> int :: Random(random) && Fresh(random, slots)
  {
    var n := Zeros(slots);
    var random: nat -> int := (k: nat) => if k < n then top + 1 + k else top;
    assert Random(random) && Fresh(random, slots);
  }

  ghost predicate NoStray(slots: seq<Slot>) { forall i :: 0 <= i < |slots| ==> slots[i].id != 0 || slots[i].apk }

  // No two attachments of the frame that share an id have different payloads.
  ghost predicate IdsAgree(slots: seq<Slot>) {
    forall i, j :: 0 <= i < j < |slots| && slots[i].id == slots[j].id != 0 ==> slots[i].payload == slots[j].payload
  }

  ghost predicate WellMade(slots: seq<Slot>) { forall i :: 0 <= i < |slots| && slots[i].apk ==> slots[i].id == 0 }

  lemma ZerosGrow(slots: seq<Slot>, i: nat, j: nat)
    requires i < j <= |slots|
    ensures Zeros(slots[..i]) + Draws(slots[i]) <= Zeros(slots[..j])
  {
    var rest := slots[i..j];
    assert slots[..j] == slots[..i] + rest && rest[0] == slots[i];
    ZerosMore(slots[..i], rest);
  }

  // Attachments that draw their ids get different ones, and those are not ids of the frame.
  lemma {:induction false} DrawsDiffer(slots: seq<Slot>, random: nat -> int, i: nat, j: nat)
    requires i < j < |slots| && Fresh(random, slots)
    requires slots[i].id == 0 || slots[j].id == 0
    ensures Entries(slots, random, 0)[i].item.id != Entries(slots, random, 0)[j].item.id
  {
    EntryAt(slots, random, 0, i);
    EntryAt(slots, random, 0, j);
    ZerosGrow(slots, i, j);
    ZerosGrow(slots, i, |slots|);
    ZerosGrow(slots, j, |slots|);
    assert slots[..|slots|] == slots;
  }

  lemma {:induction false} FreshEntries(slots: seq<Slot>, random: nat -> int)
    requires Random(random) && Fresh(random, slots) && WellMade(slots)
    ensures var es := Entries(slots, random, 0); KeysAgree(es) <==> IdsAgree(slots)
    ensures var es := Entries(slots, random, 0); StraysFound(es) <==> NoStray(slots)
  {
    var es := Entries(slots, random, 0);
    forall i | 0 <= i < |es| ensures es[i].recordedAs == (if slots[i].apk then es[i].item.id else slots[i].id) {
      EntryAt(slots, random, 0, i);
    }
    EntriesMatch(slots, random, 0);
    FreshKeys(slots, random, es);
    FreshStrays(slots, random, es);
  }

  lemma {:induction false} FreshKeys(slots: seq<Slot>, random: nat -> int, es: seq<Entry>)
    requires Random(random) && Fresh(random, slots) && WellMade(slots) && es == Entries(slots, random, 0)
    requires forall i :: 0 <= i < |es| ==> es[i].recordedAs == (if slots[i].apk then es[i].item.id else slots[i].id)
    requires forall i :: 0 <= i < |es| ==>
               es[i].payload == slots[i].payload && (es[i].recordedAs != 0 ==> es[i].item.id == es[i].recordedAs)
    ensures KeysAgree(es) <==> IdsAgree(slots)
  {
    forall i, j | 0 <= i < j < |slots|
      ensures es[i].recordedAs == es[j].recordedAs != 0 <==> slots[i].id == slots[j].id != 0
    {
      if slots[i].id == 0 || slots[j].id == 0 {
        DrawsDiffer(slots, random, i, j);
      }
    }
  }

  lemma {:induction false} FreshStrays(slots: seq<Slot>, random: nat -> int, es: seq<Entry>)
    requires Random(random) && Fresh(random, slots) && WellMade(slots) && es == Entries(slots, random, 0)
    requires forall i :: 0 <= i < |es| ==> es[i].recordedAs == (if slots[i].apk then es[i].item.id else slots[i].id)
    requires forall i :: 0 <= i < |es| ==>
               es[i].item.id != 0 && (es[i].recordedAs != 0 ==> es[i].item.id == es[i].recordedAs)
    ensures StraysFound(es) <==> NoStray(slots)
  {
    forall i | 0 <= i < |slots|
      ensures es[i].recordedAs == 0 <==> slots[i].id == 0 && !slots[i].apk
      ensures es[i].recordedAs == 0 ==> (es[i].item.id, es[i].payload) !in Recorded(es)
    {
      if es[i].recordedAs == 0 {
        forall j | 0 <= j < |es| ensures es[j].recordedAs != es[i].item.id {
          if i < j {
            DrawsDiffer(slots, random, i, j);
          } else if j < i {
            DrawsDiffer(slots, random, j, i);
          }
        }
      }
    }
  }

  lemma {:induction false} FileSlotsAt(ms: seq<FileMetadata>)
    ensures |FileSlots(ms)| == |ms|
    ensures forall i :: 0 <= i < |ms| ==> FileSlots(ms)[i] == FileSlot(ms[i])
  {
    if ms != [] {
      FileSlotsAt(ms[1..]);
    }
  }

  lemma {:induction false} TextSlotsAt(ms: seq<TextMetadata>)
    ensures |TextSlots(ms)| == |ms|
    ensures forall i :: 0 <= i < |ms| ==> TextSlots(ms)[i] == TextSlot(ms[i])
  {
    if ms != [] {
      TextSlotsAt(ms[1..]);
    }
  }

  lemma {:induction false} WifiSlotsAt(ms: seq<WifiMetadata>)
    ensures |WifiSlots(ms)| == |ms|
    ensures forall i :: 0 <= i < |ms| ==> WifiSlots(ms)[i] == WifiSlot(ms[i])
  {
    if ms != [] {
      WifiSlotsAt(ms[1..]);
    }
  }

  ghost predicate AllApks(slots: seq<Slot>) { forall i :: 0 <= i < |slots| ==> slots[i].apk && slots[i].id == 0 }

  lemma {:induction false} ApkSlotsAt(app: App, index: nat)
    requires Aligned(app) && index <= |app.names|
    ensures AllApks(ApkSlots(app, index))
    decreases |app.names| - index
  {
    if index < |app.names| {
      ApkSlotsAt(app, index + 1);
    }
  }

  lemma {:induction false} AppSlotsAt(apps: seq<App>)
    requires AllAligned(apps)
    ensures AllApks(AppSlots(apps))
  {
    if apps != [] {
      ApkSlotsAt(apps[0], 0);
      AppSlotsAt(apps[1..]);
    }
  }

  lemma SlotsWellMade(f: Frame)
    requires AllAligned(f.apps)
    ensures WellMade(Slots(f))
  {
    FileSlotsAt(f.files);
    AppSlotsAt(f.apps);
    TextSlotsAt(f.texts);
    WifiSlotsAt(f.wifis);
  }

  // Main result: when drawn ids are new, every rebuilt attachment of an accepted frame, apks included, finds its
  // own payload exactly when no file, text or Wi-Fi id is 0 and no two that share an id have different payloads.
  lemma FreshLookupIff(f: Frame, random: nat -> int)
    requires Random(random) && Read(f, random).1 == None && AllAligned(f.apps) && Fresh(random, Slots(f))
    ensures EachFinds(f, Read(f, random).0) <==> NoStray(Slots(f)) && IdsAgree(Slots(f))
  {
    LookupIff(f, random);
    SlotsWellMade(f);
    FreshEntries(Slots(f), random);
  }

  // A file sent with id 0 never finds its payload, whatever id is drawn for it.
  lemma ZeroIdFindsNothing(random: nat -> int)
    requires Random(random)
    ensures var f := Frame([FileMetadata(File(0, 1, "a", "", 0, ""), 7)], [], [], []);
            Read(f, random).1 == None && !EachFinds(f, Read(f, random).0)
  {
    var f := Frame([FileMetadata(File(0, 1, "a", "", 0, ""), 7)], [], [], []);
    assert f.files[1..] == [] && FileSizes(f.files) == 1 + FileSizes(f.files[1..]);
    AcceptedIff(f, random);
    var slot := Slot(0, 1, 7, false);
    assert Slots(f) == [slot] && Zeros([slot]) == 1 + Zeros([slot][1..]) && [slot][1..] == [];
    assert Slots(f)[0] == slot && !NoStray(Slots(f));
    FreshLookupIff(f, random);
  }

  // ---------------------------------------------------------------- the sender's map

  function Pairs(slots: seq<Slot>): (r: seq<(int, int)>)
    ensures |r| == |slots| && forall i :: 0 <= i < |r| ==> r[i] == (slots[i].id, slots[i].payload)
  {
    seq(|slots|, i requires 0 <= i < |slots| => (slots[i].id, slots[i].payload))
  }

  // The sender records texts, Wi-Fi credentials and files in that order.
  function SenderPairs(f: Frame): seq<(int, int)> {
    Pairs(TextSlots(f.texts)) + Pairs(WifiSlots(f.wifis)) + Pairs(FileSlots(f.files))
  }

  lemma SlotsWithoutApps(f: Frame)
    requires f.apps == []
    ensures Slots(f) == FileSlots(f.files) + TextSlots(f.texts) + WifiSlots(f.wifis)
    ensures forall i :: 0 <= i < |Slots(f)| ==> !Slots(f)[i].apk
  {
    FileSlotsAt(f.files);
    TextSlotsAt(f.texts);
    WifiSlotsAt(f.wifis);
    assert FileSlots(f.files) + AppSlots([]) == FileSlots(f.files);
  }

  lemma {:induction false} RecordedAsGiven(slots: seq<Slot>, random: nat -> int)
    requires forall i :: 0 <= i < |slots| ==> !slots[i].apk
    ensures Recorded(Entries(slots, random, 0)) == Pairs(slots)
  {
    forall i | 0 <= i < |slots| ensures Recorded(Entries(slots, random, 0))[i] == Pairs(slots)[i] {
      EntryAt(slots, random, 0, i);
    }
  }

  lemma PairsInAnyOrder(a: seq<Slot>, b: seq<Slot>, c: seq<Slot>)
    requires Consistent(Pairs(a + b + c))
    ensures Assign(map[], Pairs(a + b + c)) == Assign(map[], Pairs(b) + Pairs(c) + Pairs(a))
  {
    assert Pairs(a + b + c) == Pairs(a) + Pairs(b) + Pairs(c);
    OrderDoesNotMatter(Pairs(a + b + c), Pairs(b) + Pairs(c) + Pairs(a));
  }

  lemma NoStrayMore(a: seq<Slot>, b: seq<Slot>)
    ensures NoStray(a + b) <==> NoStray(a) && NoStray(b)
  {
    if NoStray(a + b) {
      forall i | 0 <= i < |a| ensures a[i].id != 0 || a[i].apk {
        assert (a + b)[i] == a[i];
      }
      forall i | 0 <= i < |b| ensures b[i].id != 0 || b[i].apk {
        assert (a + b)[|a| + i] == b[i];
      }
    }
  }

  lemma NoZeroIdsIff(c: Container, p: Payloads)
    requires Fill(c, p).Some?
    ensures NoStray(Slots(Fill(c, p).value)) <==> NoZeroIds(c)
  {
    var f := Fill(c, p).value;
    var a, b, d := FileSlots(f.files), TextSlots(f.texts), WifiSlots(f.wifis);
    SlotsWithoutApps(f);
    NoStrayMore(a, b);
    NoStrayMore(a + b, d);
    FilledFiles(c.files, p.files);
    FileSlotsAt(f.files);
    assert NoStray(a) <==> forall i :: 0 <= i < |c.files| ==> c.files[i].id != 0;
    FilledTexts(c.texts, p.texts);
    TextSlotsAt(f.texts);
    assert NoStray(b) <==> forall i :: 0 <= i < |c.texts| ==> c.texts[i].id != 0;
    FilledWifis(c.wifis, p.wifis);
    WifiSlotsAt(f.wifis);
    assert NoStray(d) <==> forall i :: 0 <= i < |c.wifis| ==> c.wifis[i].id != 0;
  }

  lemma {:induction false} NoZerosDrawn(slots: seq<Slot>)
    requires forall i :: 0 <= i < |slots| ==> slots[i].id != 0
    ensures Zeros(slots) == 0
  {
    if slots != [] {
      NoZerosDrawn(slots[1..]);
    }
  }

  // Main result: a filled frame lets every attachment find its own payload exactly when no attachment has id 0
  // and no two with different payloads share an id. Only with an id of 0 does it take that drawn ids are new. As
  // long as ids determine payloads the receiver's map is the sender's.
  lemma MapRoundTrip(c: Container, p: Payloads, random: nat -> int)
    requires Random(random) && Fill(c, p).Some? && Acceptable(Fill(c, p).value)
    ensures var f := Fill(c, p).value; var s := Read(f, random).0;
            && (NoZeroIds(c) ==> (EachFinds(f, s) <==> IdsAgree(Slots(f))))
            && (Fresh(random, Slots(f)) ==> (EachFinds(f, s) <==> NoZeroIds(c) && IdsAgree(Slots(f))))
            && (Consistent(Pairs(Slots(f))) ==> s.payloadOf == Assign(map[], SenderPairs(f)))
  {
    var f := Fill(c, p).value;
    ReadFilled(c, p, random);
    NoZeroIdsIff(c, p);
    if NoZeroIds(c) {
      SlotsWithoutApps(f);
      NoZerosDrawn(Slots(f));
    }
    if Fresh(random, Slots(f)) {
      FreshLookupIff(f, random);
    }
    if Consistent(Pairs(Slots(f))) {
      AcceptedEntries(f, random);
      SlotsWithoutApps(f);
      RecordedAsGiven(Slots(f), random);
      PairsInAnyOrder(FileSlots(f.files), TextSlots(f.texts), WifiSlots(f.wifis));
    }
  }

  // ---------------------------------------------------------------- after a refusal for the total

  // The total first exceeds 64 bits at file k.
  ghost predicate FileOverflows(sum: int, ms: seq<FileMetadata>, k: nat) {
    && k < |ms| && PositiveFiles(ms[..k + 1])
    && sum + FileSizes(ms[..k]) <= INT64_MAX < sum + FileSizes(ms[..k + 1])
  }

  // The total first exceeds 64 bits at app j.
  ghost predicate AppOverflows(sum: int, apps: seq<App>, j: nat) {
    && j < |apps| && PositiveApps(apps[..j + 1]) && AllAligned(apps[..j])
    && sum + AppSizes(apps[..j]) <= INT64_MAX < sum + AppSizes(apps[..j + 1])
  }

  // No attachment is left, but the payloads of the first ones are still recorded.
  ghost predicate ClearedAfter(s: Reading, s1: Reading, slots: seq<Slot>, random: nat -> int) {
    s1.container == EMPTY && s1.payloadOf == Assign(s.payloadOf, Recorded(Entries(slots, random, s.drawn)))
  }

  lemma ClearedMore(s: Reading, s1: Reading, end: Reading, a: seq<Slot>, b: seq<Slot>,
                    random: nat -> int)
    requires Booked(s, s1, a, random) && ClearedAfter(s1, end, b, random)
    ensures ClearedAfter(s, end, a + b, random)
  {
    PartsMore(a, b, random, s.drawn);
    AssignMore(s.payloadOf, Recorded(Entries(a, random, s.drawn)), Recorded(Entries(b, random, s1.drawn)));
  }

  lemma FilePrefixes(sum: int, ms: seq<FileMetadata>, k: nat)
    requires ms != [] && ms[0].file.size > 0 && FileOverflows(sum + ms[0].file.size, ms[1..], k)
    ensures FileOverflows(sum, ms, k + 1)
    ensures FileSlots(ms[..k + 2]) == [FileSlot(ms[0])] + FileSlots(ms[1..][..k + 1])
  {
    assert ms[..k + 1][1..] == ms[1..][..k] && ms[..k + 2][1..] == ms[1..][..k + 1];
    assert ms[..k + 2] == [ms[0]] + ms[1..][..k + 1];
  }

  lemma {:induction false} FilesOverflow(s: Reading, ms: seq<FileMetadata>, random: nat -> int)
    requires Random(random) && 0 <= s.sum <= INT64_MAX && ReadFiles(s, ms, random).1 == Some(NotEnoughSpace)
    ensures exists k: nat :: FileOverflows(s.sum, ms, k)
                             && ClearedAfter(s, ReadFiles(s, ms, random).0, FileSlots(ms[..k + 1]), random)
    decreases |ms|
  {
    var s0, sum := AddFile(s, ms[0], random), s.sum + ms[0].file.size;
    BookedOne(s, s0, FileSlot(ms[0]), random);
    if INT64_MAX < sum {
      assert ms[..1] == [ms[0]] && ms[..1][1..] == [] && ms[..0] == [];
      assert FileSlots(ms[..1]) == [FileSlot(ms[0])];
      assert FileOverflows(s.sum, ms, 0);
      assert ClearedAfter(s, Clear(s0), FileSlots(ms[..0 + 1]), random);
    } else {
      var s1, rest := s0.(sum := sum), ms[1..];
      FilesOverflow(s1, rest, random);
      var end := ReadFiles(s1, rest, random).0;
      var k: nat :| FileOverflows(sum, rest, k) && ClearedAfter(s1, end, FileSlots(rest[..k + 1]), random);
      FilePrefixes(s.sum, ms, k);
      ClearedMore(s, s1, end, [FileSlot(ms[0])], FileSlots(rest[..k + 1]), random);
      assert FileOverflows(s.sum, ms, k + 1);
    }
  }

  lemma FirstAppOverflows(s: Reading, apps: seq<App>, random: nat -> int)
    requires Random(random) && s.sum <= INT64_MAX && apps != [] && apps[0].size > 0 && s.sum + apps[0].size > INT64_MAX
    ensures AppOverflows(s.sum, apps, 0) && ClearedAfter(s, Clear(s), AppSlots(apps[..0]), random)
  {
    assert apps[..1] == [apps[0]] && apps[..1][1..] == [] && apps[..0] == [];
    NoSlots(s, [], random);
  }

  lemma {:induction false} AppsOverflow(s: Reading, apps: seq<App>, random: nat -> int)
    requires Random(random) && 0 <= s.sum <= INT64_MAX && ReadApps(s, apps, random).1 == Some(NotEnoughSpace)
    ensures exists j: nat :: AppOverflows(s.sum, apps, j)
                             && ClearedAfter(s, ReadApps(s, apps, random).0, AppSlots(apps[..j]), random)
    decreases |apps|
  {
    var sum := s.sum + apps[0].size;
    if INT64_MAX < sum {
      FirstAppOverflows(s, apps, random);
    } else {
      ApksReadIff(s, apps[0], 0, random);
      ApksBooked(s, apps[0], 0, random);
      var s1, rest := AddApks(s, apps[0], 0, random).0.(sum := sum), apps[1..];
      AppsOverflow(s1, rest, random);
      var end := ReadApps(s1, rest, random).0;
      var j: nat :| AppOverflows(sum, rest, j) && ClearedAfter(s1, end, AppSlots(rest[..j]), random);
      AppPrefixes(apps, j);
      ClearedMore(s, s1, end, ApkSlots(apps[0], 0), AppSlots(rest[..j]), random);
      assert AppOverflows(s.sum, apps, j + 1);
    }
  }

  lemma AppPrefixes(apps: seq<App>, j: nat)
    requires j < |apps| - 1 && Aligned(apps[0]) && apps[0].size > 0
    requires AllAligned(apps[1..][..j]) && PositiveApps(apps[1..][..j + 1])
    ensures AllAligned(apps[..j + 1]) && PositiveApps(apps[..j + 2])
    ensures AppSlots(apps[..j + 1]) == ApkSlots(apps[0], 0) + AppSlots(apps[1..][..j])
    ensures AppSizes(apps[..j + 1]) == apps[0].size + AppSizes(apps[1..][..j])
    ensures AppSizes(apps[..j + 2]) == apps[0].size + AppSizes(apps[1..][..j + 1])
  {
    assert apps[..j + 1][1..] == apps[1..][..j] && apps[..j + 2][1..] == apps[1..][..j + 1];
    HeadAndRest(apps[..j + 1]);
    HeadAndRest(apps[..j + 2]);
  }

  // Refused for the total while reading files, or apps.
  ghost predicate ClearedByFiles(s: Reading, f: Frame, s1: Reading, random: nat -> int, k: nat) {
    FileOverflows(s.sum, f.files, k) && ClearedAfter(s, s1, FileSlots(f.files[..k + 1]), random)
  }

  ghost predicate ClearedByApps(s: Reading, f: Frame, s1: Reading, random: nat -> int, j: nat) {
    && AppOverflows(s.sum + FileSizes(f.files), f.apps, j)
    && ClearedAfter(s, s1, FileSlots(f.files) + AppSlots(f.apps[..j]), random)
  }

  // Main result: whatever a session held, a frame refused for its total leaves no attachment, and payloads
  // recorded for exactly the attachments before the total exceeded 64 bits and, if a file did that, for that one.
  lemma OverflowClears(s: Reading, f: Frame, random: nat -> int)
    requires Random(random) && 0 <= s.sum <= INT64_MAX && ReadFrom(s, f, random).1 == Some(NotEnoughSpace)
    ensures var s1 := ReadFrom(s, f, random).0;
            || (exists k: nat :: ClearedByFiles(s, f, s1, random, k))
            || (exists j: nat :: ClearedByApps(s, f, s1, random, j))
  {
    var (s1, r1) := ReadFiles(s, f.files, random);
    if r1.Some? {
      FilesOverflow(s, f.files, random);
      var k: nat :| FileOverflows(s.sum, f.files, k) && ClearedAfter(s, s1, FileSlots(f.files[..k + 1]), random);
      assert ClearedByFiles(s, f, s1, random, k);
    } else {
      FilesReadIff(s, f.files, random);
      FilesBooked(s, f.files, random);
      var (s2, r2) := ReadApps(s1, f.apps, random);
      if r2.Some? {
        AppsOverflow(s1, f.apps, random);
        var j: nat :| AppOverflows(s1.sum, f.apps, j) && ClearedAfter(s1, s2, AppSlots(f.apps[..j]), random);
        ClearedMore(s, s1, s2, FileSlots(f.files), AppSlots(f.apps[..j]), random);
        assert ClearedByApps(s, f, s2, random, j);
      } else {
        TextsNeverMisread(s2, f.texts, random);
      }
    }
  }
}
