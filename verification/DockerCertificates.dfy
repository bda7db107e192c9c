/**
 Deploying a certificate pair into a container: each file is staged beside its destination and
 moved over it, and staging files are cleaned up.  A command that fails may have taken effect,
 and a failed copy may leave anything in its staging file; a read that answers is truthful.
 */
module DockerCertificates {
  import opened Options

  type Path = string
  datatype File = File(data: string, owner: string)
  type Files = map<Path, File>

  class Container {
    var files: Files
    /** Temporary files on the host. */
    var spool: set<nat>
    /** How many commands have failed that the files did not forbid. */
    ghost var faults: nat

    constructor (files: Files)
      ensures this.files == files && spool == {} && faults == 0
    {
      this.files, this.spool, this.faults := files, {}, 0;
    }

    /** `docker cp`: a new file, or after a failure possibly something else at that path. */
    method CopyIn(path: Path, data: string) returns (ok: bool)
      modifies `files, `faults
      ensures Except(old(files), files, {path})
      ensures ok ==> path in files && files[path].data == data
      ensures faults == if ok then old(faults) else old(faults) + 1
    {
      ok := *;
      faults := if ok then faults else faults + 1;
      var effect: bool := *;
      var left, owner := *, *;
      if ok || effect {
        files := files[path := File(if ok then data else left, owner)];
      }
    }

    method ChangeOwner(path: Path, owner: string) returns (ok: bool)
      modifies `files, `faults
      ensures Except(old(files), files, {path})
      ensures ok ==> path in old(files) && files == old(files)[path := old(files)[path].(owner := owner)]
      ensures faults == if ok || path !in old(files) then old(faults) else old(faults) + 1
    {
      ok := *;
      var effect: bool := *;
      faults := if ok || path !in files then faults else faults + 1;
      if path !in files {
        ok := false;
      } else if ok || effect {
        files := files[path := files[path].(owner := owner)];
      }
    }

    /** `chmod`: modes are not part of the model. */
    method ChangeMode(path: Path) returns (ok: bool)
      modifies `faults
      ensures faults == if ok then old(faults) else old(faults) + 1
    {
      ok := *;
      faults := if ok then faults else faults + 1;
    }

    method Move(from: Path, to: Path) returns (ok: bool)
      modifies `files, `faults
      ensures faults == if ok || from !in old(files) then old(faults) else old(faults) + 1
      ensures files == old(files) || (from in old(files) && files == (old(files) - {from})[to := old(files)[from]])
      ensures ok ==> from in old(files) && files == (old(files) - {from})[to := old(files)[from]]
    {
      ok := *;
      var effect: bool := *;
      faults := if ok || from !in files then faults else faults + 1;
      if from !in files {
        ok := false;
      } else if ok || effect {
        files := (files - {from})[to := files[from]];
      }
    }

    /** `rm -f`: a failure may have removed some of the files. */
    method Remove(paths: set<Path>) returns (ok: bool)
      modifies `files, `faults
      ensures Except(old(files), files, paths)
      ensures ok ==> forall p <- paths :: p !in files
      ensures faults == if ok then old(faults) else old(faults) + 1
    {
      ok := *;
      faults := if ok then faults else faults + 1;
      var some: set<Path> := *;
      files := if ok then files - paths else files - (paths * some);
    }

    method Read(path: Path) returns (answer: Option<Option<File>>)
      modifies `faults
      ensures answer.Some? ==> answer.value == At(files, path)
      ensures faults == if answer.Some? then old(faults) else old(faults) + 1
    {
      var answered: bool := *;
      faults := if answered then faults else faults + 1;
      answer := if answered then Some(At(files, path)) else None;
    }
  }

  function At(files: Files, path: Path): Option<File> {
    if path in files then Some(files[path]) else None
  }

  /** Nothing differs except at these paths. */
  ghost predicate Except(before: Files, after: Files, paths: set<Path>) {
    forall p :: p !in paths ==> At(after, p) == At(before, p)
  }

  /** One file to install: `data` None means that there should be none. */
  datatype Operation = Operation(data: Option<File>, destination: Path, staging: Path)

  /** All paths are different from each other. */
  ghost predicate Separate(operations: seq<Operation>) {
    && (forall i, j :: 0 <= i < |operations| && 0 <= j < |operations| ==>
        operations[i].destination != operations[j].staging)
    && (forall i, j :: 0 <= i < j < |operations| ==>
          operations[i].destination != operations[j].destination && operations[i].staging != operations[j].staging)
  }

  ghost function Stagings(operations: seq<Operation>): set<Path> {
    set i | 0 <= i < |operations| :: operations[i].staging
  }

  ghost function Destinations(operations: seq<Operation>): set<Path> {
    set i | 0 <= i < |operations| :: operations[i].destination
  }

  ghost predicate Absent(files: Files, paths: set<Path>) {
    forall p <- paths :: p !in files
  }

  ghost predicate Staged(files: Files, operations: seq<Operation>, from: nat, to: nat) {
    forall i :: from <= i < to && i < |operations| && operations[i].data.Some? ==>
        At(files, operations[i].staging) == operations[i].data
  }

  ghost predicate InPlace(files: Files, operations: seq<Operation>, to: nat) {
    forall i :: 0 <= i < to && i < |operations| ==> At(files, operations[i].destination) == operations[i].data
  }

  /** Copy, own and protect one staging file. */
  method StageOne(c: Container, op: Operation) returns (ok: bool)
    requires op.data.Some?
    modifies c
    ensures c.spool == old(c.spool) && Except(old(c.files), c.files, {op.staging})
    ensures ok ==> At(c.files, op.staging) == op.data
    ensures c.faults >= old(c.faults) && (ok <==> c.faults == old(c.faults))
  {
    ok := c.CopyIn(op.staging, op.data.value.data);
    if !ok { return; }
    ok := c.ChangeMode(op.staging);
    if !ok { return; }
    ok := c.ChangeOwner(op.staging, op.data.value.owner);
  }

  /** The first loop: stage every file there is to install; `staged` lists what may exist. */
  method StageAll(c: Container, operations: seq<Operation>) returns (staged: set<Path>, temps: set<nat>, ok: bool)
    requires Separate(operations) && Absent(c.files, Stagings(operations))
    modifies c
    ensures Except(old(c.files), c.files, staged) && staged <= Stagings(operations)
    ensures forall i :: 0 <= i < |operations| && operations[i].data.None? ==> operations[i].staging !in staged
    ensures c.spool == old(c.spool) + temps && temps !! old(c.spool)
    ensures ok ==> Staged(c.files, operations, 0, |operations|)
    ensures c.faults >= old(c.faults) && (ok <==> c.faults == old(c.faults))
  {
    staged, temps, ok := {}, {}, true;
    var i := 0;
    while i < |operations|
      invariant 0 <= i <= |operations| && ok
      invariant Except(old(c.files), c.files, staged) && staged <= Stagings(operations[..i]) <= Stagings(operations)
      invariant c.spool == old(c.spool) + temps && temps !! old(c.spool)
      invariant Staged(c.files, operations, 0, i) && c.faults == old(c.faults)
      invariant forall j :: 0 <= j < |operations| && (j >= i || operations[j].data.None?) ==>
          operations[j].staging !in staged
    {
      var op := operations[i];
      assert op.staging in Stagings(operations[..i + 1]);
      assert Stagings(operations[..i]) <= Stagings(operations[..i + 1]) <= Stagings(operations);
      if op.data.Some? {
        var temp: nat := *;
        if temp in c.spool || temp < 0 {
          c.faults := c.faults + 1;
          return staged, temps, false;
        }
        c.spool, temps := c.spool + {temp}, temps + {temp};
        ghost var before := c.files;
        ok := StageOne(c, op);
        ExceptGrow(old(c.files), before, c.files, staged, op.staging);
        staged := staged + {op.staging};
        if !ok {
          return;
        }
        StagedMore(before, c.files, operations, i);
      }
      i := i + 1;
    }
  }

  lemma {:induction false} ExceptGrow(a: Files, b: Files, c: Files, paths: set<Path>, p: Path)
    requires Except(a, b, paths) && Except(b, c, {p})
    ensures Except(a, c, paths + {p})
  {
    forall q | q !in paths + {p} ensures At(c, q) == At(a, q) {
      assert At(b, q) == At(a, q) && At(c, q) == At(b, q);
    }
  }

  lemma {:induction false} StagedMore(before: Files, after: Files, operations: seq<Operation>, i: nat)
    requires Separate(operations) && i < |operations| && Staged(before, operations, 0, i)
    requires Except(before, after, {operations[i].staging}) && At(after, operations[i].staging) == operations[i].data
    ensures Staged(after, operations, 0, i + 1)
  {
    forall j | 0 <= j < i && operations[j].data.Some? ensures At(after, operations[j].staging) == operations[j].data {
      assert operations[j].staging != operations[i].staging;
    }
  }

  /** One destination: moved over, or removed. */
  method PlaceOne(c: Container, op: Operation) returns (ok: bool)
    requires op.destination != op.staging && (op.data.Some? ==> At(c.files, op.staging) == op.data)
    modifies c`files, c`faults
    ensures c.faults >= old(c.faults) && (ok <==> c.faults == old(c.faults))
    ensures Except(old(c.files), c.files, {op.staging, op.destination})
    ensures op.data.None? ==> Except(old(c.files), c.files, {op.destination})
    ensures ok ==> At(c.files, op.destination) == op.data && (op.data.Some? ==> op.staging !in c.files)
  {
    if op.data.None? {
      ok := c.Remove({op.destination});
    } else {
      ok := c.Move(op.staging, op.destination);
    }
  }

  /** One round of the second loop. */
  method PlaceNext(c: Container, operations: seq<Operation>, i: nat, staged: set<Path>) returns (staged': set<Path>,
      ok: bool)
    requires Separate(operations) && i < |operations| && InPlace(c.files, operations, i)
        && Staged(c.files, operations, i, |operations|)
    requires Absent(c.files, Stagings(operations) - staged)
    modifies c`files, c`faults
    ensures c.faults >= old(c.faults) && (ok <==> c.faults == old(c.faults))
    ensures operations[i].staging in Stagings(operations) && operations[i].destination in Destinations(operations)
    ensures Except(old(c.files), c.files, {operations[i].staging, operations[i].destination})
    ensures staged' <= staged && Absent(c.files, Stagings(operations) - staged')
    ensures ok ==> InPlace(c.files, operations, i + 1) && Staged(c.files, operations, i + 1, |operations|)
    ensures ok && operations[i].data.Some? ==> operations[i].staging !in staged'
  {
    var op := operations[i];
    staged' := staged;
    ok := PlaceOne(c, op);
    PlacedOne(old(c.files), c.files, operations, i, staged);
    if ok && op.data.Some? {
      AbsentLess(c.files, Stagings(operations), staged, op.staging);
      staged' := staged - {op.staging};
    }
  }

  /** The second loop: put every destination in its final state. */
  method PlaceAll(c: Container, operations: seq<Operation>, staged: set<Path>) returns (staged': set<Path>, ok: bool)
    requires Separate(operations) && Staged(c.files, operations, 0, |operations|)
    requires staged <= Stagings(operations) && Absent(c.files, Stagings(operations) - staged)
    modifies c`files, c`faults
    ensures c.faults >= old(c.faults) && (ok <==> c.faults == old(c.faults))
    ensures Except(old(c.files), c.files, Stagings(operations) + Destinations(operations))
    ensures staged' <= Stagings(operations) && Absent(c.files, Stagings(operations) - staged')
    ensures ok ==> InPlace(c.files, operations, |operations|)
    ensures ok ==> forall i :: 0 <= i < |operations| && operations[i].data.Some? ==> operations[i].staging !in staged'
    ensures staged' <= staged
  {
    staged', ok := staged, true;
    var i := 0;
    while i < |operations|
      invariant 0 <= i <= |operations| && ok && c.faults == old(c.faults)
      invariant Except(old(c.files), c.files, Stagings(operations) + Destinations(operations))
      invariant staged' <= staged && Absent(c.files, Stagings(operations) - staged')
      invariant InPlace(c.files, operations, i) && Staged(c.files, operations, i, |operations|)
      invariant forall j :: 0 <= j < i && operations[j].data.Some? ==> operations[j].staging !in staged'
    {
      ghost var before := c.files;
      staged', ok := PlaceNext(c, operations, i, staged');
      ExceptMore(old(c.files), before, c.files, Stagings(operations) + Destinations(operations),
                 {operations[i].staging, operations[i].destination});
      if !ok {
        return;
      }
      i := i + 1;
    }
  }

  lemma {:induction false} ExceptMore(a: Files, b: Files, c: Files, paths: set<Path>, more: set<Path>)
    requires Except(a, b, paths) && Except(b, c, more) && more <= paths
    ensures Except(a, c, paths)
  {
    forall p | p !in paths ensures At(c, p) == At(a, p) {
      assert At(b, p) == At(a, p) && At(c, p) == At(b, p);
    }
  }

  lemma {:induction false} AbsentLess(files: Files, paths: set<Path>, staged: set<Path>, p: Path)
    requires Absent(files, paths - staged) && p !in files
    ensures Absent(files, paths - (staged - {p}))
  {
  }

  /** Placing one file disturbs no other. */
  lemma {:induction false} PlacedOne(before: Files, after: Files, operations: seq<Operation>, i: nat, staged: set<Path>)
    requires Separate(operations) && i < |operations|
    requires Except(before, after, {operations[i].staging, operations[i].destination})
    requires operations[i].data.None? ==> Except(before, after, {operations[i].destination})
    requires operations[i].data.Some? ==> operations[i].staging in before
    requires Absent(before, Stagings(operations) - staged)
    ensures Absent(after, Stagings(operations) - staged)
    ensures InPlace(before, operations, i) ==> InPlace(after, operations, i)
    ensures Staged(before, operations, i, |operations|) ==> Staged(after, operations, i + 1, |operations|)
  {
    forall p | p in Stagings(operations) - staged ensures p !in after {
      var j :| 0 <= j < |operations| && operations[j].staging == p;
      assert p !in before;
      if operations[i].data.Some? {
        assert p != operations[i].staging;
      }
      assert At(after, p) == At(before, p);
    }
  }

  /** Only a failure prevents success, and it takes another one to prevent the cleaning up. */
  ghost predicate Effort(before: nat, after: nat, ok: bool, cleaned: bool) {
    before <= after && (ok <==> after == before) && (!cleaned ==> after >= before + 2)
  }

  /** Install a set of files.  On success each is in place and no staging file is left; after a
      failure that could be cleaned up no staging file is left either.  Nothing else changes,
      and no temporary file stays on the host. */
  method InstallMaterial(c: Container, operations: seq<Operation>) returns (ok: bool, cleaned: bool)
    requires Separate(operations) && Absent(c.files, Stagings(operations))
    modifies c
    ensures Except(old(c.files), c.files, Stagings(operations) + Destinations(operations)) && c.spool == old(c.spool)
    ensures ok ==> InPlace(c.files, operations, |operations|)
    ensures ok || cleaned ==> Absent(c.files, Stagings(operations))
    ensures Effort(old(c.faults), c.faults, ok, cleaned)
  {
    var staged, temps;
    staged, temps, ok := StageAll(c, operations);
    StagedOnly(old(c.files), c.files, operations, staged);
    if ok {
      staged, ok := PlaceAll(c, operations, staged);
    }
    cleaned := ok;
    if !ok {
      cleaned := c.Remove(staged);
    }
    c.spool := c.spool - temps;
  }

  lemma {:induction false} StagedOnly(before: Files, after: Files, operations: seq<Operation>, staged: set<Path>)
    requires Except(before, after, staged) && Absent(before, Stagings(operations))
    ensures Absent(after, Stagings(operations) - staged)
  {
    forall p | p in Stagings(operations) - staged ensures p !in after {
      assert At(after, p) == At(before, p);
    }
  }

  // ---------------------------------------------------------------------------------------
  // Deploying the pair
  // ---------------------------------------------------------------------------------------

  /** The paths of a pair of files and of their staging files. */
  datatype Paths = Paths(certificate: Path, privateKey: Path, certificateStaging: Path, privateKeyStaging: Path)

  function Operations(paths: Paths, certificate: Option<File>, privateKey: Option<File>): seq<Operation> {
    [Operation(certificate, paths.certificate, paths.certificateStaging),
        Operation(privateKey, paths.privateKey, paths.privateKeyStaging)]
  }

  ghost predicate Holds(files: Files, paths: Paths, certificate: Option<File>, privateKey: Option<File>) {
    At(files, paths.certificate) == certificate && At(files, paths.privateKey) == privateKey
  }

  ghost predicate Clean(files: Files, paths: Paths) {
    paths.certificateStaging !in files && paths.privateKeyStaging !in files
  }

  ghost predicate Apart(paths: Paths) {
    && paths.certificate != paths.privateKey && paths.certificateStaging != paths.privateKeyStaging
    && paths.certificate != paths.certificateStaging && paths.certificate != paths.privateKeyStaging
    && paths.privateKey != paths.certificateStaging && paths.privateKey != paths.privateKeyStaging
  }

  ghost function All(paths: Paths): set<Path> {
    {paths.certificate, paths.privateKey, paths.certificateStaging, paths.privateKeyStaging}
  }

  /** The same for a pair. */
  method InstallPair(c: Container, paths: Paths, certificate: Option<File>,
      privateKey: Option<File>) returns (ok: bool, cleaned: bool)
    requires Apart(paths) && Clean(c.files, paths)
    modifies c
    ensures Except(old(c.files), c.files, All(paths)) && c.spool == old(c.spool)
    ensures ok ==> Holds(c.files, paths, certificate, privateKey)
    ensures ok || cleaned ==> Clean(c.files, paths)
    ensures Effort(old(c.faults), c.faults, ok, cleaned)
  {
    var operations := Operations(paths, certificate, privateKey);
    assert Stagings(operations) == {operations[0].staging, operations[1].staging};
    assert Destinations(operations) == {operations[0].destination, operations[1].destination};
    ok, cleaned := InstallMaterial(c, operations);
    assert ok ==>
        At(c.files, operations[0].destination) == certificate && At(c.files, operations[1].destination) == privateKey;
  }

  /** Install the old pair again and check that it is back. */
  method Restore(c: Container, paths: Paths, certificate: Option<File>, privateKey: Option<File>) returns (ok: bool)
    requires Apart(paths) && Clean(c.files, paths)
    modifies c
    ensures Except(old(c.files), c.files, All(paths)) && c.spool == old(c.spool)
    ensures ok ==> Holds(c.files, paths, certificate, privateKey) && Clean(c.files, paths)
    ensures c.faults >= old(c.faults) && (ok <==> c.faults == old(c.faults))
  {
    var cleaned;
    ok, cleaned := InstallPair(c, paths, certificate, privateKey);
    if !ok { return; }
    var back := c.Read(paths.certificate);
    if back.None? { return false; }
    var backKey := c.Read(paths.privateKey);
    if backKey.None? { return false; }
    ok := back.value == certificate && backKey.value == privateKey;
  }

  datatype Exit = Deployed | NotStarted | PriorRestored | RollbackFailed

  function OwnerOf(file: Option<File>, default: string): string {
    if file.Some? then file.value.owner else default
  }

  /** Deploy a valid pair.  `paths` and `rollback` share their destinations; their staging names
      are fresh.  Normal return: the new pair is in place, owned as before.  Prior material
      restored: both destinations are as they were.  In both cases no staging file is left;
      only a failed rollback may leave a mixed pair. */
  method Deploy(c: Container, paths: Paths, rollback: Paths, certificate: string, privateKey: string,
                valid: (string, string) -> bool, fingerprint: string -> string, defaultOwner: string) returns (r: Exit)
    requires Apart(paths) && Apart(rollback) && Clean(c.files, paths) && Clean(c.files, rollback)
    requires (rollback.certificate, rollback.privateKey) == (paths.certificate, paths.privateKey)
    requires {paths.certificateStaging, paths.privateKeyStaging} !! {rollback.certificateStaging,
        rollback.privateKeyStaging}
    modifies c
    ensures Except(old(c.files), c.files, All(paths) + All(rollback)) && c.spool == old(c.spool)
    ensures r == Deployed ==>
      && valid(certificate, privateKey)
      && Holds(c.files, paths, Some(File(certificate, OwnerOf(At(old(c.files), paths.certificate), defaultOwner))),
               Some(File(privateKey, OwnerOf(At(old(c.files), paths.privateKey), defaultOwner))))
    ensures r == NotStarted || r == PriorRestored ==>
      Holds(c.files, paths, At(old(c.files), paths.certificate), At(old(c.files), paths.privateKey))
    ensures r != RollbackFailed ==> Clean(c.files, paths) && Clean(c.files, rollback)
    ensures c.faults >= old(c.faults)
    ensures r == Deployed <==> valid(certificate, privateKey) && c.faults == old(c.faults)
    ensures r == RollbackFailed ==> c.faults >= old(c.faults) + 2
    ensures !valid(certificate, privateKey) ==> r == NotStarted
  {
    if !valid(certificate, privateKey) {
      return NotStarted;
    }
    var oldCertificate := c.Read(paths.certificate);
    if oldCertificate.None? { return NotStarted; }
    var oldPrivateKey := c.Read(paths.privateKey);
    if oldPrivateKey.None? { return NotStarted; }
    var certificateFile := File(certificate, OwnerOf(oldCertificate.value, defaultOwner));
    var privateKeyFile := File(privateKey, OwnerOf(oldPrivateKey.value, defaultOwner));
    var ok, cleaned := InstallPair(c, paths, Some(certificateFile), Some(privateKeyFile));
    ghost var installed := c.files;
    Disjoint(old(c.files), installed, paths, rollback);
    if ok {
      var deployed := c.Read(paths.certificate);
      var deployedKey := c.Read(paths.privateKey);
      if deployed.Some? && deployedKey.Some? && deployed.value.Some? && deployedKey.value.Some?
         && valid(deployed.value.value.data, deployedKey.value.value.data)
         && fingerprint(deployed.value.value.data) == fingerprint(certificate) {
        return Deployed;
      }
    }
    ok := Restore(c, rollback, oldCertificate.value, oldPrivateKey.value);
    if !ok { return RollbackFailed; }
    ok := c.Remove({paths.certificateStaging, paths.privateKeyStaging});
    r := if ok then PriorRestored else RollbackFailed;
  }

  /** Work with one set of staging names leaves the other one's alone. */
  lemma {:induction false} Disjoint(before: Files, after: Files, paths: Paths, rollback: Paths)
    requires Except(before, after, All(paths)) && Clean(before, rollback) && Apart(rollback)
    requires (rollback.certificate, rollback.privateKey) == (paths.certificate, paths.privateKey)
    requires {paths.certificateStaging, paths.privateKeyStaging} !! {rollback.certificateStaging,
        rollback.privateKeyStaging}
    ensures Clean(after, rollback)
  {
    assert rollback.certificateStaging !in All(paths) && rollback.privateKeyStaging !in All(paths);
    assert At(after, rollback.certificateStaging) == At(before, rollback.certificateStaging);
    assert At(after, rollback.privateKeyStaging) == At(before, rollback.privateKeyStaging);
  }
}
