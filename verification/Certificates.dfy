/**
 Deploying a certificate and its private key on the host: two atomic file replacements, a
 read-back, a reload, and rollback.  Any write, removal or reload may fail before or after it
 took effect; a read that answers is truthful.
 */
module Certificates {
  import opened Options

  type Bytes = string

  datatype Kind = Certificate | PrivateKey

  /** The pair of files as they are; None is a missing file. */
  datatype Material = Material(certificate: Option<Bytes>, privateKey: Option<Bytes>) {
    function Of(kind: Kind): Option<Bytes> {
      if kind == Certificate then certificate else privateKey
    }

    function With(kind: Kind, data: Option<Bytes>): Material {
      if kind == Certificate then this.(certificate := data) else this.(privateKey := data)
    }
  }

  class Host {
    var files: Material
    /** The server has loaded the files as they now are. */
    ghost var loaded: bool
    /** How many commands have failed. */
    ghost var faults: nat

    constructor (files: Material)
      ensures this.files == files && !loaded && faults == 0
    {
      this.files, this.loaded, this.faults := files, false, 0;
    }

    /** Replace a file atomically, or remove it. */
    method Put(kind: Kind, data: Option<Bytes>) returns (ok: bool)
      modifies this
      ensures files == old(files) || files == old(files).With(kind, data)
      ensures ok ==> files == old(files).With(kind, data)
      ensures loaded ==> old(loaded) && files == old(files)
      ensures faults == if ok then old(faults) else old(faults) + 1
    {
      ok := *;
      faults := if ok then faults else faults + 1;
      var effect: bool := *;
      if ok || effect {
        files := files.With(kind, data);
        loaded := false;
      }
    }

    method Read(kind: Kind) returns (answer: Option<Option<Bytes>>)
      modifies `faults
      ensures answer.Some? ==> answer.value == files.Of(kind)
      ensures faults == if answer.Some? then old(faults) else old(faults) + 1
    {
      var answered: bool := *;
      faults := if answered then faults else faults + 1;
      answer := if answered then Some(files.Of(kind)) else None;
    }

    method Reload() returns (ok: bool)
      modifies `loaded, `faults
      ensures ok ==> loaded
      ensures faults == if ok then old(faults) else old(faults) + 1
    {
      ok := *;
      faults := if ok then faults else faults + 1;
      var effect: bool := *;
      if ok || effect {
        loaded := true;
      }
    }
  }

  /** Bring both files back and check that they are back; only a command that fails prevents it. */
  method RestorePriorMaterial(host: Host, prior: Material) returns (ok: bool)
    modifies host
    ensures ok ==> host.files == prior
    ensures host.faults >= old(host.faults) && (ok <==> host.faults == old(host.faults))
  {
    ok := host.Put(Certificate, prior.certificate);
    if !ok { return; }
    ok := host.Put(PrivateKey, prior.privateKey);
    if !ok { return; }
    var certificate := host.Read(Certificate);
    if certificate.None? { return false; }
    var privateKey := host.Read(PrivateKey);
    if privateKey.None? { return false; }
    ok := certificate.value == prior.certificate && privateKey.value == prior.privateKey;
  }

  /** There is a certificate, there is a key, and they belong together. */
  ghost predicate Deployable(certificate: Option<Bytes>, privateKey: Option<Bytes>, valid: (Bytes, Bytes) -> bool) {
    certificate.Some? && privateKey.Some? && valid(certificate.value, privateKey.value)
  }

  datatype Copy = Copied(prior: Material) | Untouched | Restored | RollbackFailed

  /** Install the source pair; `valid` says whether a certificate and a key belong together. */
  method CopyAllowlistedSource(host: Host, certificate: Option<Bytes>, privateKey: Option<Bytes>, valid: (Bytes,
      Bytes) -> bool)
    returns (r: Copy)
    modifies host
    ensures r.Copied? ==>
      && certificate.Some? && privateKey.Some? && valid(certificate.value, privateKey.value)
      && host.files == Material(certificate, privateKey) && r.prior == old(host.files)
    ensures r == Untouched || r == Restored ==> host.files == old(host.files)
    ensures r == Untouched ==> host.loaded == old(host.loaded)
    ensures host.faults >= old(host.faults)
    ensures r.Copied? <==> host.faults == old(host.faults) && Deployable(certificate, privateKey, valid)
    ensures r == RollbackFailed ==> host.faults >= old(host.faults) + 2
    ensures !Deployable(certificate, privateKey, valid) ==> r == Untouched && host.faults == old(host.faults)
  {
    if certificate.None? || privateKey.None? || !valid(certificate.value, privateKey.value) {
      return Untouched;
    }
    var oldCertificate := host.Read(Certificate);
    if oldCertificate.None? { return Untouched; }
    var oldPrivateKey := host.Read(PrivateKey);
    if oldPrivateKey.None? { return Untouched; }
    var prior := Material(oldCertificate.value, oldPrivateKey.value);
    var ok := host.Put(Certificate, certificate);
    if ok {
      ok := host.Put(PrivateKey, privateKey);
      if ok {
        var deployed := host.Read(Certificate);
        var deployedKey := host.Read(PrivateKey);
        ok := deployed.Some? && deployedKey.Some? && deployed.value.Some? && deployedKey.value.Some?
              && valid(deployed.value.value, deployedKey.value.value);
        if ok {
          return Copied(prior);
        }
      }
    }
    ok := RestorePriorMaterial(host, prior);
    r := if ok then Restored else RollbackFailed;
  }

  datatype Exit = Deployed | NotStarted | PriorRestored | PriorReloaded | RollbackLost

  /** Deploy and reload.  Normal return: the server has loaded the new pair.  If the error says
      that prior material was restored, both files are as they were, and were reloaded if the
      new pair had been read back.  Only a failed rollback may leave a mixed pair.  A pair that
      belongs together is deployed exactly if no command fails, and it takes two failures to
      lose the rollback, provided that a reload command is configured. */
  method DeployAndReload(host: Host, certificate: Option<Bytes>, privateKey: Option<Bytes>,
                         valid: (Bytes, Bytes) -> bool, fingerprint: Bytes -> string, hasReload: bool)
    returns (r: Exit)
    modifies host
    ensures r == Deployed ==> host.files == Material(certificate, privateKey) && host.loaded
    ensures r == NotStarted || r == PriorRestored || r == PriorReloaded ==> host.files == old(host.files)
    ensures r == PriorReloaded ==> host.loaded
    ensures host.files != old(host.files) && host.files != Material(certificate, privateKey) ==> r == RollbackLost
    ensures r == Deployed <==>
      hasReload && Deployable(certificate, privateKey, valid) && host.faults == old(host.faults)
    ensures r == RollbackLost ==> host.faults >= old(host.faults) + (if hasReload then 2 else 0)
    ensures !Deployable(certificate, privateKey, valid) ==> r == NotStarted && host.faults == old(host.faults)
    ensures host.faults >= old(host.faults)
  {
    var copy := CopyAllowlistedSource(host, certificate, privateKey, valid);
    match copy {
      case Untouched => return NotStarted;
      case Restored => return PriorRestored;
      case RollbackFailed => return RollbackLost;
      case Copied(_) =>
    }
    var prior := copy.prior;
    var deployed := host.Read(Certificate);
    var deployedKey := host.Read(PrivateKey);
    var ok := deployed.Some? && deployedKey.Some? && deployed.value.Some? && deployedKey.value.Some?
              && valid(deployed.value.value, deployedKey.value.value)
              && fingerprint(deployed.value.value) == fingerprint(certificate.value);
    if ok && hasReload {
      ok := host.Reload();
      if ok {
        return Deployed;
      }
    }
    ok := RestorePriorMaterial(host, prior);
    if ok && hasReload {
      ok := host.Reload();
      if ok {
        return PriorReloaded;
      }
    }
    r := RollbackLost;
  }
}
