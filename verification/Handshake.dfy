/** The paired-key handshake of sharing/paired_key_verification_runner.cc, run by two devices over a
    connection that keeps order.

    Certificates are symbolic: a signature or a token hash is accepted exactly when it was made with the
    matching key over the same text. Randomness stands for anything else.
 */
module Handshake {
  import opened Wrappers
  import opened DeviceVisibilities

  datatype Result = Success | Unable | Fail | UnknownResult

  datatype Prefix = SenderPrefix | ReceiverPrefix

  datatype Signature = Signed(key: int, prefix: Prefix, token: int) | RandomSignature

  datatype TokenHash = HashOf(key: int, token: int) | RandomHash

  datatype History = History(visibility: Visibility, lastVisibility: Visibility, lastTime: int)

  // `certificate` is the peer's public certificate, if known.
  datatype Config = Config(incoming: bool, os: int, token: int, history: History, certificate: Option<int>,
                           privateKeys: map<Visibility, int>)

  datatype Frame =
    | Encryption(signed: Signature, optionalSigned: Option<Signature>, hash: TokenHash)
    | ResultFrame(status: Result, os: int)

  // In seconds: fifteen minutes.
  const RELAX_AFTER_SET_VISIBILITY := 900

  // The constructor: a sender always signs and verifies with its all-contacts certificate.
  function NewConfig(incoming: bool, os: int, token: int, history: History, certificate: Option<int>,
                     privateKeys: map<Visibility, int>): Config
  {
    Config(incoming, os, token, if incoming then history else History(AllContacts, AllContacts, 0),
           certificate, privateKeys)
  }

  function LocalPrefix(c: Config): Prefix { if c.incoming then ReceiverPrefix else SenderPrefix }

  function RemotePrefix(c: Config): Prefix { if c.incoming then SenderPrefix else ReceiverPrefix }

  predicate RecentlyUpdated(c: Config, now: int) {
    c.history.visibility != c.history.lastVisibility && now - c.history.lastTime < RELAX_AFTER_SET_VISIBILITY
  }

  function Sign(c: Config, v: Visibility): Option<Signature> {
    if v in c.privateKeys then Some(Signed(c.privateKeys[v], LocalPrefix(c), c.token)) else None
  }

  function EncryptionFrame(c: Config, now: int): Frame {
    var s := Sign(c, c.history.visibility);
    Encryption(if s.Some? then s.value else RandomSignature,
               if RecentlyUpdated(c, now) then Sign(c, c.history.lastVisibility) else None,
               if c.certificate.Some? then HashOf(c.certificate.value, c.token) else RandomHash)
  }

  function VerifyHash(c: Config, v: Visibility, f: Frame): Result
    requires f.Encryption?
  {
    if v in c.privateKeys && f.hash == HashOf(c.privateKeys[v], c.token) then Success else Unable
  }

  function HashResult(c: Config, now: int, f: Frame): Result
    requires f.Encryption?
  {
    var r := VerifyHash(c, c.history.visibility, f);
    if r != Success && RecentlyUpdated(c, now) then VerifyHash(c, c.history.lastVisibility, f) else r
  }

  predicate Verifies(c: Config, s: Signature) {
    c.certificate.Some? && s == Signed(c.certificate.value, RemotePrefix(c), c.token)
  }

  function LocalResult(c: Config, f: Frame): Result
    requires f.Encryption?
  {
    if c.certificate == None then Unable
    else if Verifies(c, f.signed) then Success
    else if f.optionalSigned.Some? && Verifies(c, f.optionalSigned.value) then Success
    else Fail
  }

  function ApplyResult(combined: Result, r: Result): Result {
    if combined == Fail then Fail
    else match r case Success => combined case Fail => Fail case Unable => Unable case UnknownResult => Unable
  }

  // ---------------------------------------------------------------- the verdict is a maximum

  function Rank(r: Result): nat {
    match r case Success => 0 case Unable => 1 case UnknownResult => 1 case Fail => 2
  }

  function Combine(results: seq<Result>): Result {
    if results == [] then Success else ApplyResult(Combine(results[..|results| - 1]), results[|results| - 1])
  }

  // However many results there are and in whatever order, the verdict is the worst of them.
  lemma {:induction false} CombineIsWorst(results: seq<Result>)
    ensures Combine(results) != UnknownResult
    ensures forall r :: r in results ==> Rank(r) <= Rank(Combine(results))
    ensures Combine(results) == Success || exists r :: r in results && Rank(r) == Rank(Combine(results))
  {
    if results != [] {
      var init, last := results[..|results| - 1], results[|results| - 1];
      CombineIsWorst(init);
      assert results == init + [last];
      assert last in results;
      if Combine(init) != Success {
        var r :| r in init && Rank(r) == Rank(Combine(init));
        assert r in results;
      }
    }
  }

  lemma OrderDoesNotMatter(a: seq<Result>, b: seq<Result>)
    requires forall r :: r in a <==> r in b
    ensures Combine(a) == Combine(b)
  {
    CombineIsWorst(a);
    CombineIsWorst(b);
  }

  // ---------------------------------------------------------------- when the checks succeed

  // The keys a device signs with at the given time.
  predicate SignsWith(c: Config, key: int, now: int) {
    || (c.history.visibility in c.privateKeys && c.privateKeys[c.history.visibility] == key)
    || (RecentlyUpdated(c, now) && c.history.lastVisibility in c.privateKeys
        && c.privateKeys[c.history.lastVisibility] == key)
  }

  // A device accepts its peer's signature exactly when it knows a certificate the peer signed with.
  lemma SignatureAcceptedIff(c: Config, peer: Config, now: int)
    requires peer.token == c.token && peer.incoming == !c.incoming
    ensures LocalResult(c, EncryptionFrame(peer, now)) == Success <==>
            c.certificate.Some? && SignsWith(peer, c.certificate.value, now)
    ensures LocalResult(c, EncryptionFrame(peer, now)) == Unable <==> c.certificate == None
  {
  }

  // Its own frame sent back to it is never accepted, whatever certificate it holds.
  lemma ReflectionIsNotAccepted(c: Config, now: int)
    ensures LocalResult(c, EncryptionFrame(c, now)) != Success
  {
  }

  // The token hash shows that the peer knows this device's certificate.
  lemma HashAcceptedIff(c: Config, peer: Config, now: int, peerNow: int)
    requires peer.token == c.token
    ensures HashResult(c, now, EncryptionFrame(peer, peerNow)) == Success <==>
            peer.certificate.Some? && SignsWith(c, peer.certificate.value, now)
    ensures HashResult(c, now, EncryptionFrame(peer, peerNow)) != Fail
  {
  }

  // ---------------------------------------------------------------- one device

  datatype Phase = Idle | WantsEncryption | WantsResult | Answered(verdict: Result, os: int)

  const UNKNOWN_OS := 0

  // `written` is every frame the device has sent and `read` how many of its peer's it has taken.
  datatype Party = Party(config: Config, phase: Phase, combined: Result, written: seq<Frame>, read: nat)

  function NewParty(c: Config): Party { Party(c, Idle, UnknownResult, [], 0) }

  function Run(p: Party, now: int): Party {
    p.(phase := WantsEncryption, combined := Success, written := p.written + [EncryptionFrame(p.config, now)])
  }

  // None is a timeout or a closed connection.
  function OnEncryption(p: Party, now: int, frame: Option<Frame>): Party
    requires frame.Some? ==> frame.value.Encryption?
  {
    match frame
    case None => p.(phase := Answered(Fail, UNKNOWN_OS))
    case Some(f) =>
      var r := LocalResult(p.config, f);
      p.(phase := WantsResult, combined := ApplyResult(ApplyResult(p.combined, HashResult(p.config, now, f)), r),
         written := p.written + [ResultFrame(r, p.config.os)])
  }

  function OnResult(p: Party, frame: Option<Frame>): Party
    requires frame.Some? ==> frame.value.ResultFrame?
  {
    match frame
    case None => p.(phase := Answered(Fail, UNKNOWN_OS))
    case Some(f) =>
      var combined := ApplyResult(p.combined, f.status);
      p.(phase := Answered(combined, f.os), combined := combined)
  }

  // ---------------------------------------------------------------- both devices

  datatype World = World(a: Party, b: Party)

  datatype Side = A | B

  datatype Step = Start(side: Side, now: int) | Read(side: Side, now: int) | Expire(side: Side)

  function Get(w: World, side: Side): Party { if side == A then w.a else w.b }

  function Put(w: World, side: Side, p: Party): World { if side == A then w.(a := p) else w.(b := p) }

  function Other(side: Side): Side { if side == A then B else A }

  predicate Wanted(p: Party, f: Frame) {
    (p.phase == WantsEncryption && f.Encryption?) || (p.phase == WantsResult && f.ResultFrame?)
  }

  // A device takes the next frame of its peer when that is the one it waits for.
  predicate Readable(w: World, side: Side) {
    var p, peer := Get(w, side), Get(w, Other(side));
    p.read < |peer.written| && Wanted(p, peer.written[p.read])
  }

  predicate Enabled(w: World, step: Step) {
    match step
    case Start(side, now) => Get(w, side).phase == Idle
    case Read(side, now) => Readable(w, side)
    case Expire(side) => Get(w, side).phase == WantsEncryption || Get(w, side).phase == WantsResult
  }

  function Next(w: World, step: Step): World {
    if !Enabled(w, step) then w else
    match step
    case Start(side, now) => Put(w, side, Run(Get(w, side), now))
    case Read(side, now) =>
      var p := Get(w, side);
      var f := Get(w, Other(side)).written[p.read];
      var p1 := p.(read := p.read + 1);
      Put(w, side, if p.phase == WantsEncryption then OnEncryption(p1, now, Some(f)) else OnResult(p1, Some(f)))
    case Expire(side) =>
      var p := Get(w, side);
      Put(w, side, if p.phase == WantsEncryption then OnEncryption(p, 0, None) else OnResult(p, None))
  }

  function Exec(w: World, steps: seq<Step>): World {
    if steps == [] then w else Next(Exec(w, steps[..|steps| - 1]), steps[|steps| - 1])
  }

  // ---------------------------------------------------------------- what every run keeps

  // The signature check of a device's own result frame, once sent.
  ghost function SentResult(p: Party): Result
    requires |p.written| == 2 && p.written[1].ResultFrame?
  {
    p.written[1].status
  }

  ghost predicate Shape(p: Party) {
    && |p.written| <= 2
    && (|p.written| > 0 ==> p.written[0].Encryption? && exists t :: p.written[0] == EncryptionFrame(p.config, t))
    && (|p.written| > 1 ==> p.written[1].ResultFrame? && p.written[1].os == p.config.os
                            && p.written[1].status != UnknownResult)
    && (p.phase == Idle ==> |p.written| == 0 && p.read == 0)
    && (p.phase == WantsEncryption ==> |p.written| == 1 && p.read == 0)
    && (p.phase == WantsResult ==> |p.written| == 2 && p.read == 1)
    && (p.phase.Answered? ==> p.read == |p.written| == 2 || (p.phase.verdict == Fail && |p.written| == p.read + 1))
    && p.read <= 2
  }

  // Three results are combined: the token hash, checked at time t, the signature of the peer's frame and
  // the peer's own result.
  ghost predicate FirstTwo(p: Party, f: Frame, t: int) {
    f.Encryption? && p.combined == Combine([HashResult(p.config, t, f), LocalResult(p.config, f)])
  }

  ghost predicate AllThree(p: Party, f: Frame, q: Result, t: int) {
    f.Encryption? && p.combined == Combine([HashResult(p.config, t, f), LocalResult(p.config, f), q])
  }

  ghost predicate Judged(p: Party, peer: Party)
    requires Shape(p) && Shape(peer)
  {
    && p.read <= |peer.written|
    && (p.phase == WantsEncryption ==> p.combined == Success)
    && (|p.written| == 2 ==> p.read >= 1 && SentResult(p) == LocalResult(p.config, peer.written[0]))
    && (p.phase == WantsResult ==> exists t :: FirstTwo(p, peer.written[0], t))
    && (p.phase.Answered? && p.read == 2 ==>
          && p.phase.os == peer.config.os && p.phase.verdict == p.combined
          && exists t :: AllThree(p, peer.written[0], SentResult(peer), t))
  }

  ghost predicate Inv(w: World) {
    Shape(w.a) && Shape(w.b) && Judged(w.a, w.b) && Judged(w.b, w.a)
  }

  lemma CombineTwo(h: Result, r: Result)
    ensures Combine([h, r]) == ApplyResult(ApplyResult(Success, h), r)
  {
    assert [h, r][..1] == [h] && [h][..0] == [];
    assert Combine([h]) == ApplyResult(Combine([]), h);
  }

  lemma CombineThree(h: Result, r: Result, q: Result)
    ensures Combine([h, r, q]) == ApplyResult(Combine([h, r]), q)
  {
    assert [h, r, q][..2] == [h, r];
  }

  lemma WritingKeepsJudged(p: Party, peer: Party, peer1: Party)
    requires Shape(p) && Shape(peer) && Shape(peer1) && Judged(p, peer)
    requires peer.written <= peer1.written && peer1.config == peer.config
    ensures Judged(p, peer1)
  {
    assert forall i :: 0 <= i < |peer.written| ==> peer1.written[i] == peer.written[i];
    if p.phase.Answered? && p.read == 2 {
      var t :| AllThree(p, peer.written[0], SentResult(peer), t);
      assert AllThree(p, peer1.written[0], SentResult(peer1), t);
    }
  }

  lemma ReadEncryptionKeeps(p: Party, peer: Party, now: int)
    requires Shape(p) && Shape(peer) && Judged(p, peer)
    requires p.phase == WantsEncryption && |peer.written| > 0
    ensures var p1 := OnEncryption(p.(read := 1), now, Some(peer.written[0]));
            Shape(p1) && Judged(p1, peer) && p.written <= p1.written
  {
    var f := peer.written[0];
    CombineTwo(HashResult(p.config, now, f), LocalResult(p.config, f));
    assert FirstTwo(OnEncryption(p.(read := 1), now, Some(f)), f, now);
  }

  lemma ReadResultKeeps(p: Party, peer: Party)
    requires Shape(p) && Shape(peer) && Judged(p, peer)
    requires p.phase == WantsResult && |peer.written| == 2
    ensures var p1 := OnResult(p.(read := 2), Some(peer.written[1]));
            Shape(p1) && Judged(p1, peer)
  {
    var f := peer.written[0];
    var t :| FirstTwo(p, f, t);
    CombineThree(HashResult(p.config, t, f), LocalResult(p.config, f), SentResult(peer));
    assert AllThree(OnResult(p.(read := 2), Some(peer.written[1])), f, SentResult(peer), t);
  }

  lemma StepKeeps(p: Party, peer: Party, step: Step, w: World)
    requires Inv(w) && Enabled(w, step) && p == Get(w, step.side) && peer == Get(w, Other(step.side))
    ensures var p1 := Get(Next(w, step), step.side);
            Shape(p1) && Judged(p1, peer) && p.written <= p1.written && p1.config == p.config
  {
    match step
    case Start(side, now) =>
    case Read(side, now) =>
      if p.phase == WantsEncryption { ReadEncryptionKeeps(p, peer, now); } else { ReadResultKeeps(p, peer); }
    case Expire(side) =>
  }

  lemma NextKeeps(w: World, step: Step)
    requires Inv(w)
    ensures Inv(Next(w, step))
  {
    if Enabled(w, step) {
      var p, peer := Get(w, step.side), Get(w, Other(step.side));
      StepKeeps(p, peer, step, w);
      WritingKeepsJudged(peer, p, Get(Next(w, step), step.side));
    }
  }

  lemma {:induction false} EveryRun(c: Config, d: Config, steps: seq<Step>)
    ensures Inv(Exec(World(NewParty(c), NewParty(d)), steps))
  {
    if steps != [] {
      EveryRun(c, d, steps[..|steps| - 1]);
      NextKeeps(Exec(World(NewParty(c), NewParty(d)), steps[..|steps| - 1]), steps[|steps| - 1]);
    }
  }

  ghost predicate ReadBoth(p: Party) { p.phase.Answered? && p.read == 2 }

  lemma WorstOfThree(p: Party, peer: Party, t: int)
    requires Shape(p) && Shape(peer) && Judged(p, peer) && ReadBoth(p)
    requires AllThree(p, peer.written[0], SentResult(peer), t)
    ensures p.phase.verdict == Fail <==> SentResult(p) == Fail || SentResult(peer) == Fail
    ensures p.phase.verdict == Success <==>
            HashResult(p.config, t, peer.written[0]) == SentResult(p) == SentResult(peer) == Success
  {
    var f := peer.written[0];
    CombineTwo(HashResult(p.config, t, f), LocalResult(p.config, f));
    CombineThree(HashResult(p.config, t, f), LocalResult(p.config, f), SentResult(peer));
  }

  // Main result: in every run in which both devices read both frames, one ends in failure exactly when
  // the other does, namely when either could not verify the other's signature; and each learns the
  // other's system.
  lemma BothFailOrNeither(c: Config, d: Config, steps: seq<Step>)
    ensures var w := Exec(World(NewParty(c), NewParty(d)), steps);
            ReadBoth(w.a) && ReadBoth(w.b) ==>
              && |w.a.written| == |w.b.written| == 2
              && (w.a.phase.verdict == Fail <==> w.b.phase.verdict == Fail)
              && (w.a.phase.verdict == Fail <==>
                    || w.a.written[1] == ResultFrame(Fail, w.a.config.os)
                    || w.b.written[1] == ResultFrame(Fail, w.b.config.os))
              && w.a.phase.os == w.b.config.os && w.b.phase.os == w.a.config.os
  {
    var w := Exec(World(NewParty(c), NewParty(d)), steps);
    EveryRun(c, d, steps);
    if ReadBoth(w.a) && ReadBoth(w.b) {
      var t :| AllThree(w.a, w.b.written[0], SentResult(w.b), t);
      var u :| AllThree(w.b, w.a.written[0], SentResult(w.a), u);
      WorstOfThree(w.a, w.b, t);
      WorstOfThree(w.b, w.a, u);
    }
  }

  // Success is mutual knowledge: a device that answers success, whatever its peer does afterwards, holds
  // a certificate its peer signs with, and its peer holds one of its own.
  lemma {:induction false} SuccessMeansMutualContacts(c: Config, d: Config, steps: seq<Step>)
    requires d.token == c.token && d.incoming == !c.incoming
    ensures var w := Exec(World(NewParty(c), NewParty(d)), steps);
            w.a.phase.Answered? && w.a.phase.verdict == Success ==>
              && c.certificate.Some? && (exists t :: SignsWith(d, c.certificate.value, t))
              && d.certificate.Some? && (exists t :: SignsWith(c, d.certificate.value, t))
  {
    var w := Exec(World(NewParty(c), NewParty(d)), steps);
    EveryRun(c, d, steps);
    ConfigsStay(c, d, steps);
    if w.a.phase.Answered? && w.a.phase.verdict == Success {
      var t :| AllThree(w.a, w.b.written[0], SentResult(w.b), t);
      WorstOfThree(w.a, w.b, t);
      var u :| w.b.written[0] == EncryptionFrame(w.b.config, u);
      var v :| w.a.written[0] == EncryptionFrame(w.a.config, v);
      SignatureAcceptedIff(c, d, u);
      SignatureAcceptedIff(d, c, v);
    }
  }

  lemma {:induction false} ConfigsStay(c: Config, d: Config, steps: seq<Step>)
    ensures var w := Exec(World(NewParty(c), NewParty(d)), steps); w.a.config == c && w.b.config == d
  {
    if steps != [] {
      ConfigsStay(c, d, steps[..|steps| - 1]);
    }
  }

  // ---------------------------------------------------------------- never stuck, and finite

  ghost predicate TimedOut(p: Party) { p.phase.Answered? && p.read < 2 }

  // Until both have answered, some device can start or read, unless one has timed out; and a waiting
  // device can always time out.
  lemma NeverStuck(c: Config, d: Config, steps: seq<Step>)
    ensures var w := Exec(World(NewParty(c), NewParty(d)), steps);
            && (!TimedOut(w.a) && !TimedOut(w.b) && !(w.a.phase.Answered? && w.b.phase.Answered?) ==>
                  exists step: Step :: !step.Expire? && Enabled(w, step))
            && (!(w.a.phase.Answered? && w.b.phase.Answered?) ==> exists step: Step :: Enabled(w, step))
  {
    var w := Exec(World(NewParty(c), NewParty(d)), steps);
    EveryRun(c, d, steps);
    if !TimedOut(w.a) && !TimedOut(w.b) && !(w.a.phase.Answered? && w.b.phase.Answered?) {
      if w.a.phase == Idle { assert Enabled(w, Start(A, 0)); }
      else if w.b.phase == Idle { assert Enabled(w, Start(B, 0)); }
      else if w.a.phase == WantsEncryption { assert Enabled(w, Read(A, 0)); }
      else if w.b.phase == WantsEncryption { assert Enabled(w, Read(B, 0)); }
      else if w.a.phase == WantsResult { assert Enabled(w, Read(A, 0)); }
      else { assert Enabled(w, Read(B, 0)); }
    }
    if !(w.a.phase.Answered? && w.b.phase.Answered?) {
      var side := if w.a.phase.Answered? then B else A;
      if Get(w, side).phase == Idle { assert Enabled(w, Start(side, 0)); } else { assert Enabled(w, Expire(side)); }
    }
  }

  function Left(p: Party): nat {
    match p.phase case Idle => 3 case WantsEncryption => 2 case WantsResult => 1 case Answered(_, _) => 0
  }

  // Each enabled step is progress, so at most six are taken, and an answer is final.
  lemma EveryStepIsProgress(w: World, step: Step)
    requires Enabled(w, step)
    ensures var w1 := Next(w, step); Left(w1.a) + Left(w1.b) < Left(w.a) + Left(w.b) <= 6
    ensures forall side :: Get(w, side).phase.Answered? ==> Get(Next(w, step), side) == Get(w, side)
  {
  }

  // Known contacts: if each device holds a certificate the other signs with when its frames are made and
  // checked, both checks of both devices succeed.
  lemma KnownContactsVerify(c: Config, d: Config, now: int)
    requires d.token == c.token && d.incoming == !c.incoming
    requires c.certificate.Some? && SignsWith(d, c.certificate.value, now)
    requires d.certificate.Some? && SignsWith(c, d.certificate.value, now)
    ensures HashResult(c, now, EncryptionFrame(d, now)) == LocalResult(c, EncryptionFrame(d, now)) == Success
    ensures HashResult(d, now, EncryptionFrame(c, now)) == LocalResult(d, EncryptionFrame(c, now)) == Success
  {
    SignatureAcceptedIff(c, d, now);
    SignatureAcceptedIff(d, c, now);
    HashAcceptedIff(c, d, now, now);
    HashAcceptedIff(d, c, now, now);
  }
}
