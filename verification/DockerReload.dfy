/**
 Deploying into a container and reloading the server: the deployment of DockerCertificates, a
 check of what is deployed, the reload, and the rollback that the deployment has handed out.
 */
module DockerReload {
  import opened Options
  import opened DockerCertificates

  datatype Final = Live | HookFailed(exit: Exit) | PriorReloaded | RollbackLost

  /** What must hold of the staging names of one more installation. */
  ghost predicate Spare(files: Files, paths: Paths, other: Paths) {
    && Apart(other) && Clean(files, other)
    && (other.certificate, other.privateKey) == (paths.certificate, paths.privateKey)
    && {paths.certificateStaging, paths.privateKeyStaging} !! {other.certificateStaging, other.privateKeyStaging}
  }

  ghost predicate Restored(before: Files, after: Files, paths: Paths) {
    Holds(after, paths, At(before, paths.certificate), At(before, paths.privateKey))
  }

  ghost predicate Installed(before: Files, after: Files, paths: Paths, certificate: string, privateKey: string,
      defaultOwner: string) {
    Holds(after, paths, Some(File(certificate, OwnerOf(At(before, paths.certificate), defaultOwner))),
          Some(File(privateKey, OwnerOf(At(before, paths.privateKey), defaultOwner))))
  }

  ghost predicate ValidPair(files: Files, paths: Paths, valid: (string, string) -> bool) {
    && paths.certificate in files && paths.privateKey in files
    && valid(files[paths.certificate].data, files[paths.privateKey].data)
  }

  /** What both files hold and what they say, if they can be read and belong together. */
  method DeployedStatus(c: Container, paths: Paths, valid: (string, string) -> bool, fingerprint: string -> string)
    returns (shown: Option<string>)
    modifies c`faults
    ensures shown.Some? ==> paths.certificate in c.files && shown.value == fingerprint(c.files[paths.certificate].data)
    ensures c.faults >= old(c.faults)
    ensures shown.Some? <==> c.faults == old(c.faults) && ValidPair(c.files, paths, valid)
  {
    shown := None;
    var certificate := c.Read(paths.certificate);
    var privateKey := c.Read(paths.privateKey);
    if certificate.Some? && privateKey.Some? && certificate.value.Some? && privateKey.value.Some?
       && valid(certificate.value.value.data, privateKey.value.value.data) {
      shown := Some(fingerprint(certificate.value.value.data));
    }
  }

  /** Reload the server; `loaded` is what it has loaded last. */
  method Reload(c: Container, ghost before: Option<Files>) returns (ok: bool, ghost loaded: Option<Files>)
    modifies c`faults
    ensures c.faults == if ok then old(c.faults) else old(c.faults) + 1
    ensures loaded == before || loaded == Some(c.files)
    ensures ok ==> loaded == Some(c.files)
  {
    ok := *;
    c.faults := if ok then c.faults else c.faults + 1;
    var effect: bool := *;
    loaded := if ok || effect then Some(c.files) else before;
  }

  /** Deploy, check and reload.  Live: the server has loaded the new pair.  Prior material
      restored and reloaded: the server has loaded the old pair.  Only an exit that reports a
      failed rollback may leave a mixed pair or staging files.  A valid pair goes live exactly if
      no command fails, and it takes two failures to lose the rollback. */
  method DeployAndReload(c: Container, paths: Paths, rollback: Paths, again: Paths, certificate: string,
      privateKey: string,
                         valid: (string, string) -> bool, fingerprint: string -> string, defaultOwner: string,
                             hasReload: bool)
    returns (r: Final, ghost loaded: Option<Files>)
    requires Apart(paths) && Clean(c.files, paths)
    requires Spare(c.files, paths, rollback) && Spare(c.files, paths, again) && Spare(c.files, rollback, again)
    modifies c
    ensures Except(old(c.files), c.files, All(paths) + All(rollback) + All(again)) && c.spool == old(c.spool)
    ensures r == Live ==>
      valid(certificate, privateKey) && Installed(old(c.files), c.files, paths, certificate, privateKey, defaultOwner)
    ensures r == Live || r == PriorReloaded ==> loaded == Some(c.files)
    ensures r == HookFailed(NotStarted) || r == HookFailed(PriorRestored) || r == PriorReloaded ==>
        Restored(old(c.files), c.files, paths)
    ensures r != RollbackLost && r != HookFailed(RollbackFailed) ==>
      Clean(c.files, paths) && Clean(c.files, rollback) && Clean(c.files, again)
    ensures r != HookFailed(Exit.Deployed) && c.faults >= old(c.faults)
    ensures r == Live <==> hasReload && valid(certificate, privateKey) && c.faults == old(c.faults)
    ensures r == HookFailed(RollbackFailed) || (r == RollbackLost && hasReload) ==> c.faults >= old(c.faults) + 2
  {
    loaded := None;
    var oldCertificate, oldPrivateKey := At(c.files, paths.certificate), At(c.files, paths.privateKey);
    var exit := Deploy(c, paths, rollback, certificate, privateKey, valid, fingerprint, defaultOwner);
    StillClean(old(c.files), c.files, paths, rollback, again);
    if exit != Exit.Deployed {
      return HookFailed(exit), loaded;
    }
    ghost var installed := c.files;
    var shown := DeployedStatus(c, paths, valid, fingerprint);
    if shown == Some(fingerprint(certificate)) && hasReload {
      var ok;
      ok, loaded := Reload(c, loaded);
      if ok {
        return Live, loaded;
      }
    }
    var ok := Restore(c, again, oldCertificate, oldPrivateKey);
    Disjoint(installed, c.files, again, paths);
    Disjoint(installed, c.files, again, rollback);
    if ok && hasReload {
      ok, loaded := Reload(c, loaded);
      if ok {
        return PriorReloaded, loaded;
      }
    }
    r := RollbackLost;
  }

  /** The deployment does not touch the staging names of the later rollback. */
  lemma {:induction false} StillClean(before: Files, after: Files, paths: Paths, rollback: Paths, again: Paths)
    requires Except(before, after, All(paths) + All(rollback)) && Spare(before, paths, again)
        && Spare(before, rollback, again)
    ensures Clean(after, again)
  {
    assert again.certificateStaging !in All(paths) + All(rollback)
        && again.privateKeyStaging !in All(paths) + All(rollback);
    assert At(after, again.certificateStaging) == At(before, again.certificateStaging);
    assert At(after, again.privateKeyStaging) == At(before, again.privateKeyStaging);
  }
}
