// The runner object behind Handshake (sharing/paired_key_verification_runner.cc). Frames written and the
// type of the pending read stand for the frame writer and the frames reader it is given.
module PairedKeyVerificationRunners {
  import opened Wrappers
  import opened DeviceVisibilities
  import opened Handshake

  class PairedKeyVerificationRunner {
    const osType: int
    const rawToken: int
    const isIncoming: bool
    const visibilityHistory: History
    const certificate: Option<int>
    const privateKeys: map<Visibility, int>
    var verificationResult: Result
    var phase: Phase
    var frames: seq<Frame>
    ghost var read: nat

    ghost function State(): Party
      reads this
    {
      Party(Configuration(), phase, verificationResult, frames, read)
    }

    function Configuration(): Config {
      Config(isIncoming, osType, rawToken, visibilityHistory, certificate, privateKeys)
    }

    constructor (osType: int, shareTargetIsIncoming: bool, history: History, token: int, certificate: Option<int>,
                 privateKeys: map<Visibility, int>)
      ensures State() == NewParty(NewConfig(shareTargetIsIncoming, osType, token, history, certificate, privateKeys))
    {
      this.osType, rawToken, isIncoming := osType, token, shareTargetIsIncoming;
      this.certificate, this.privateKeys := certificate, privateKeys;
      visibilityHistory := if shareTargetIsIncoming then history else History(AllContacts, AllContacts, 0);
      verificationResult, phase, frames, read := UnknownResult, Idle, [], 0;
    }

    method Run(now: int)
      modifies this
      ensures State() == Handshake.Run(old(State()), now)
    {
      verificationResult := Success;
      SendPairedKeyEncryptionFrame(now);
      phase := WantsEncryption;
    }

    method OnReadPairedKeyEncryptionFrame(frame: Option<Frame>, now: int)
      requires frame.Some? ==> frame.value.Encryption?
      modifies this
      ensures State() == OnEncryption(old(State()).(read := read), now, frame)
      ensures read == old(read) + if frame.Some? then 1 else 0
    {
      if frame == None {
        phase := Answered(Fail, UNKNOWN_OS);
        return;
      }
      read := read + 1;
      var authTokenHashResult := VerifyAuthTokenHashWithPrivateCertificate(visibilityHistory.visibility, frame.value);
      if authTokenHashResult != Success {
        if RecentlyUpdated(Configuration(), now) {
          authTokenHashResult :=
            VerifyAuthTokenHashWithPrivateCertificate(visibilityHistory.lastVisibility, frame.value);
        }
      }
      ApplyResult(authTokenHashResult);
      var localResult := VerifyPairedKeyEncryptionFrame(frame.value);
      ApplyResult(localResult);
      frames := frames + [ResultFrame(localResult, osType)];
      phase := WantsResult;
    }

    method OnReadPairedKeyResultFrame(frame: Option<Frame>)
      requires frame.Some? ==> frame.value.ResultFrame?
      modifies this
      ensures State() == OnResult(old(State()).(read := read), frame)
      ensures read == old(read) + if frame.Some? then 1 else 0
    {
      if frame == None {
        phase := Answered(Fail, UNKNOWN_OS);
        return;
      }
      read := read + 1;
      ApplyResult(frame.value.status);
      phase := Answered(verificationResult, frame.value.os);
    }

    method SendPairedKeyEncryptionFrame(now: int)
      modifies this
      ensures State() == old(State()).(written := old(frames) + [EncryptionFrame(Configuration(), now)])
    {
      var signature := Sign(Configuration(), visibilityHistory.visibility);
      if signature == None {
        signature := Some(RandomSignature);
      }
      var certificateIdHash := RandomHash;
      if certificate.Some? {
        certificateIdHash := HashOf(certificate.value, rawToken);
      }
      var optionalSignature: Option<Signature> := None;
      if RecentlyUpdated(Configuration(), now) {
        optionalSignature := Sign(Configuration(), visibilityHistory.lastVisibility);
      }
      frames := frames + [Encryption(signature.value, optionalSignature, certificateIdHash)];
    }

    method VerifyAuthTokenHashWithPrivateCertificate(visibility: Visibility, frame: Frame) returns (r: Result)
      requires frame.Encryption?
      ensures r == VerifyHash(Configuration(), visibility, frame)
    {
      if visibility in privateKeys && HashOf(privateKeys[visibility], rawToken) == frame.hash {
        return Success;
      }
      return Unable;
    }

    method VerifyPairedKeyEncryptionFrame(frame: Frame) returns (r: Result)
      requires frame.Encryption?
      ensures r == LocalResult(Configuration(), frame)
    {
      if certificate == None {
        return Unable;
      }
      var genuine := Signed(certificate.value, RemotePrefix(Configuration()), rawToken);
      if frame.signed != genuine {
        if frame.optionalSigned == None {
          return Fail;
        }
        if frame.optionalSigned.value != genuine {
          return Fail;
        }
      }
      return Success;
    }

    method ApplyResult(result: Result)
      modifies this`verificationResult
      ensures verificationResult == Handshake.ApplyResult(old(verificationResult), result)
    {
      if verificationResult == Fail {
        return;
      }
      match result {
        case Success =>
        case Fail => verificationResult := Fail;
        case Unable => verificationResult := Unable;
        case UnknownResult => verificationResult := Unable;
      }
    }
  }
}
