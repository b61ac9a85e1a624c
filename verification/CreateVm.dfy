/**
 Creating a VM as a sequence of VBoxManage commands with compensation. Any
 command can fail without effect, or report failure although its effect
 happened; either way the VM and its disk have to be gone afterwards.
 */
module CreateVm {
  import opened Common

  datatype Outcome = Works | FailsClean | FailsDone

  datatype Command =
    | RegisterVm | ModifyVm | CreateDisk | AddController | AttachDisk | AttachDvd
    | WireSerial | ConfigureInstall | UnregisterVm | CloseMedium

  /** What matters of the host: the new VM, the file at its disk path, and credential files. */
  datatype World = World(registered: bool, disk: bool, attached: bool, creds: set<string>)

  function Effect(w: World, c: Command): World {
    match c
    case RegisterVm => w.(registered := true)
    case CreateDisk => w.(disk := true)
    case AttachDisk => w.(attached := w.registered && w.disk)
    case UnregisterVm => w.(registered := false, disk := w.disk && !w.attached, attached := false)
    case CloseMedium => if w.attached then w else w.(disk := false)
    case _ => w
  }

  function RunCommand(w: World, c: Command, o: Outcome): World {
    if o == FailsClean then w else Effect(w, c)
  }

  datatype Credential = CreateFails | WriteFails | Written

  /** Everything the host decides during one call. */
  datatype Luck = Luck(
    register: Outcome, uuidKnown: bool, pathOk: bool,
    steps: nat -> Outcome, serial: Outcome,
    credential: Credential, credentialFile: string, credentialRemoved: bool, install: Outcome,
    unregister: Outcome, close: Outcome, removed: bool)

  /** The error returned is the one of the stage that failed first. */
  datatype Stage = AtRegister | AtUuid | AtPath | AtStep(i: nat) | AtCredential | AtInstall

  datatype Result = Created | Failed(at: Stage)

  const UNATTENDED_STEPS := [ModifyVm, CreateDisk, AddController, AttachDisk]
  const MANUAL_STEPS := [ModifyVm, CreateDisk, AddController, AttachDisk, AttachDvd]

  // ---- what the calls do ----

  /** withDisk is false when the disk path could not be built. */
  function CleanedUp(w: World, luck: Luck, withDisk: bool): World {
    var w1 := RunCommand(w, UnregisterVm, luck.unregister);
    if !withDisk || !w1.disk then w1
    else
      var w2 := RunCommand(w1, CloseMedium, luck.close);
      w2.(disk := w2.disk && !luck.removed)
  }

  /** Runs the steps from number i on; gives the number of the one that failed, if any. */
  function StepsRun(w: World, steps: seq<Command>, luck: Luck, i: nat): (World, Option<nat>)
    requires i <= |steps|
    decreases |steps| - i
  {
    if i == |steps| then (w, None)
    else
      var w' := RunCommand(w, steps[i], luck.steps(i));
      if luck.steps(i) == Works then StepsRun(w', steps, luck, i + 1) else (w', Some(i))
  }

  function WithoutCredential(w: World, luck: Luck): World {
    if luck.credentialRemoved then w.(creds := w.creds - {luck.credentialFile}) else w
  }

  function Installed(w: World, luck: Luck): (World, Result) {
    if luck.credential == CreateFails then (CleanedUp(w, luck, true), Failed(AtCredential))
    else
      var w1 := w.(creds := w.creds + {luck.credentialFile});
      if luck.credential == WriteFails then (CleanedUp(WithoutCredential(w1, luck), luck, true), Failed(AtCredential))
      else
        var w2 := RunCommand(w1, ConfigureInstall, luck.install);
        if luck.install == Works then (WithoutCredential(w2, luck), Created)
        else (WithoutCredential(CleanedUp(w2, luck, true), luck), Failed(AtInstall))
  }

  function CreateRun(w: World, luck: Luck, manual: bool, linux: bool): (World, Result) {
    var w1 := RunCommand(w, RegisterVm, luck.register);
    if luck.register != Works then (w1, Failed(AtRegister))
    else if !luck.uuidKnown then (w1, Failed(AtUuid))
    else if !luck.pathOk then (CleanedUp(w1, luck, false), Failed(AtPath))
    else
      var (w2, failed) := StepsRun(w1, if manual then MANUAL_STEPS else UNATTENDED_STEPS, luck, 0);
      if failed.Some? then (CleanedUp(w2, luck, true), Failed(AtStep(failed.value)))
      else
        var w3 := if linux then RunCommand(w2, WireSerial, luck.serial) else w2;
        if manual then (w3, Created) else Installed(w3, luck)
  }

  // ---- the calls ----

  class Host {
    var registered: bool
    var disk: bool
    var attached: bool
    var creds: set<string>

    function View(): World
      reads this
    {
      World(registered, disk, attached, creds)
    }

    constructor (w: World)
      ensures View() == w
    {
      registered, disk, attached, creds := w.registered, w.disk, w.attached, w.creds;
    }

    method Run(c: Command, o: Outcome) returns (ok: bool)
      modifies this
      ensures ok == (o == Works) && View() == RunCommand(old(View()), c, o)
    {
      ok := o == Works;
      if o == FailsClean {
        return;
      }
      match c {
        case RegisterVm => registered := true;
        case CreateDisk => disk := true;
        case AttachDisk => attached := registered && disk;
        case UnregisterVm => registered, disk, attached := false, disk && !attached, false;
        case CloseMedium => disk := disk && attached;
        case _ =>
      }
    }

    /** Best effort: no failure in here replaces the error the caller is returning. */
    method CleanupFailedCreate(luck: Luck, withDisk: bool)
      modifies this
      ensures View() == CleanedUp(old(View()), luck, withDisk)
    {
      var ok := Run(UnregisterVm, luck.unregister);
      if !withDisk || !disk {
        return;
      }
      ok := Run(CloseMedium, luck.close);
      if disk && luck.removed {
        disk := false;
      }
    }

    method RunSteps(steps: seq<Command>, luck: Luck) returns (failed: Option<nat>)
      modifies this
      ensures (View(), failed) == StepsRun(old(View()), steps, luck, 0)
    {
      var i := 0;
      while i < |steps|
        invariant i <= |steps|
        invariant StepsRun(View(), steps, luck, i) == StepsRun(old(View()), steps, luck, 0)
      {
        var ok := Run(steps[i], luck.steps(i));
        if !ok {
          return Some(i);
        }
        i := i + 1;
      }
      return None;
    }

    method RemoveCredential(luck: Luck)
      modifies `creds
      ensures View() == WithoutCredential(old(View()), luck)
    {
      if luck.credentialRemoved {
        creds := creds - {luck.credentialFile};
      }
    }

    method RegisterAndBuild(luck: Luck, steps: seq<Command>, linux: bool) returns (failed: Option<Stage>)
      requires !registered && !attached && steps in {UNATTENDED_STEPS, MANUAL_STEPS}
      modifies this
      ensures failed.Some? ==> (View(), Failed(failed.value)) == CreateRun(old(View()), luck, steps == MANUAL_STEPS, linux)
      ensures failed.None? ==>
                CreateRun(old(View()), luck, steps == MANUAL_STEPS, linux)
                == (if steps == MANUAL_STEPS then (View(), Created) else Installed(View(), luck))
    {
      var ok := Run(RegisterVm, luck.register);
      if !ok {
        return Some(AtRegister);
      }
      if !luck.uuidKnown {
        return Some(AtUuid);
      }
      if !luck.pathOk {
        CleanupFailedCreate(luck, false);
        return Some(AtPath);
      }
      var step := RunSteps(steps, luck);
      if step.Some? {
        CleanupFailedCreate(luck, true);
        return Some(AtStep(step.value));
      }
      if linux {
        ok := Run(WireSerial, luck.serial);
      }
      return None;
    }

    method CreateVmManual(luck: Luck, linux: bool) returns (r: Result)
      requires !registered && !attached
      modifies this
      ensures (View(), r) == CreateRun(old(View()), luck, true, linux)
    {
      var failed := RegisterAndBuild(luck, MANUAL_STEPS, linux);
      r := if failed.Some? then Failed(failed.value) else Created;
    }

    method CreateVmUnattended(luck: Luck, linux: bool) returns (r: Result)
      requires !registered && !attached
      modifies this
      ensures (View(), r) == CreateRun(old(View()), luck, false, linux)
    {
      assert |UNATTENDED_STEPS| != |MANUAL_STEPS|;
      var failed := RegisterAndBuild(luck, UNATTENDED_STEPS, linux);
      if failed.Some? {
        return Failed(failed.value);
      }
      if luck.credential == CreateFails {
        CleanupFailedCreate(luck, true);
        return Failed(AtCredential);
      }
      creds := creds + {luck.credentialFile};
      if luck.credential == WriteFails {
        RemoveCredential(luck);
        CleanupFailedCreate(luck, true);
        return Failed(AtCredential);
      }
      var ok := Run(ConfigureInstall, luck.install);
      if !ok {
        CleanupFailedCreate(luck, true);
        r := Failed(AtInstall);
      } else {
        r := Created;
      }
      RemoveCredential(luck);
    }
  }

  // ---- all or nothing ----

  lemma {:induction false} AttachedHasDisk(w: World, steps: seq<Command>, luck: Luck, i: nat)
    requires i <= |steps| && steps in {UNATTENDED_STEPS, MANUAL_STEPS}
    requires w.attached ==> w.disk && w.registered
    requires w.registered
    ensures var w' := StepsRun(w, steps, luck, i).0;
            w'.registered && (w'.attached ==> w'.disk) && w'.creds == w.creds
    decreases |steps| - i
  {
    if i < |steps| && luck.steps(i) == Works {
      AttachedHasDisk(RunCommand(w, steps[i], luck.steps(i)), steps, luck, i + 1);
    }
  }

  /** The world a failing run would leave if none of its cleanup took effect. */
  function Uncleaned(w: World, luck: Luck, manual: bool, linux: bool): World {
    CreateRun(w, luck.(unregister := FailsClean, close := FailsClean, removed := false), manual, linux).0
  }

  /** Unregistering took effect, and so did one way to remove a disk that was not attached. */
  predicate CleanupWorks(luck: Luck, before: World) {
    luck.unregister != FailsClean && (before.disk && !before.attached ==> luck.close != FailsClean || luck.removed)
  }

  lemma CleanupIff(w: World, luck: Luck, withDisk: bool)
    requires w.registered && (w.attached ==> w.disk) && (!withDisk ==> !w.disk)
    ensures var w' := CleanedUp(w, luck, withDisk);
            && (!w'.registered && !w'.disk <==> CleanupWorks(luck, w))
            && w'.creds == w.creds
            && CleanedUp(w, luck.(unregister := FailsClean, close := FailsClean, removed := false), withDisk) == w
  {
  }

  lemma {:induction false} SameSteps(w: World, steps: seq<Command>, luck: Luck, luck': Luck, i: nat)
    requires i <= |steps| && luck.steps == luck'.steps
    ensures StepsRun(w, steps, luck, i) == StepsRun(w, steps, luck', i)
    decreases |steps| - i
  {
    if i < |steps| {
      SameSteps(RunCommand(w, steps[i], luck.steps(i)), steps, luck, luck', i + 1);
    }
  }

  /**
   Create is all or nothing. On a host without the VM and without a file at the
   disk path: a successful call leaves the VM registered with its disk attached;
   a call that fails after the VM's identifier is known, at whichever step and
   with or without that step's effect, leaves no VM and no disk if and only if
   unregistering took effect and, where a disk exists that was never attached,
   closing it or removing its file took effect too.
   */
  lemma AllOrNothing(w: World, luck: Luck, manual: bool, linux: bool)
    requires !w.registered && !w.disk && !w.attached
    ensures var (w', r) := CreateRun(w, luck, manual, linux);
            && (r.Created? ==> w'.registered && w'.disk && w'.attached)
            && (r.Failed? && r.at != AtRegister && r.at != AtUuid ==>
                  (!w'.registered && !w'.disk <==> CleanupWorks(luck, Uncleaned(w, luck, manual, linux))))
  {
    if luck.register == Works && luck.uuidKnown {
      var steps := if manual then MANUAL_STEPS else UNATTENDED_STEPS;
      var luck' := luck.(unregister := FailsClean, close := FailsClean, removed := false);
      var w1 := RunCommand(w, RegisterVm, luck.register);
      var w2 := StepsRun(w1, steps, luck, 0).0;
      CleanupIff(w1, luck, false);
      SameSteps(w1, steps, luck, luck', 0);
      AttachedHasDisk(w1, steps, luck, 0);
      AllStepsAttach(w1, steps, luck);
      CleanupIff(w2, luck, true);
      InstallCleanup(w2, luck);
    }
  }

  lemma InstallCleanup(w: World, luck: Luck)
    requires w.registered && (w.attached ==> w.disk)
    ensures var luck' := luck.(unregister := FailsClean, close := FailsClean, removed := false);
            var (w', r) := Installed(w, luck);
            && (r.Created? ==> w'.(creds := w.creds) == w)
            && (r.Failed? ==> (!w'.registered && !w'.disk <==> CleanupWorks(luck, Installed(w, luck').0)))
  {
    var w1 := w.(creds := w.creds + {luck.credentialFile});
    CleanupIff(w, luck, true);
    CleanupIff(w1, luck, true);
    CleanupIff(WithoutCredential(w1, luck), luck, true);
  }

  lemma AllStepsAttach(w: World, steps: seq<Command>, luck: Luck)
    requires steps in {UNATTENDED_STEPS, MANUAL_STEPS} && w.registered && !w.disk && !w.attached
    ensures StepsRun(w, steps, luck, 0).1.None? ==> StepsRun(w, steps, luck, 0).0 == w.(disk := true, attached := true)
  {
    assert steps[..4] == UNATTENDED_STEPS;
    if StepsRun(w, steps, luck, 0).1.None? {
      var w2 := w.(disk := true);
      assert StepsRun(w, steps, luck, 0) == StepsRun(w, steps, luck, 1);
      assert StepsRun(w, steps, luck, 1) == StepsRun(w2, steps, luck, 2);
      assert StepsRun(w2, steps, luck, 2) == StepsRun(w2, steps, luck, 3);
      assert StepsRun(w2, steps, luck, 3) == StepsRun(w2.(attached := true), steps, luck, 4);
    }
  }

  /** Whatever happens during the cleanup, the caller gets the error that caused it. */
  lemma OriginalErrorKept(w: World, luck: Luck, manual: bool, linux: bool, unregister: Outcome, close: Outcome, removed: bool)
    ensures CreateRun(w, luck.(unregister := unregister, close := close, removed := removed), manual, linux).1
            == CreateRun(w, luck, manual, linux).1
    ensures CreateRun(w, luck, manual, linux).1.Created? ==>
              luck.register == Works && forall i: nat :: i < (if manual then 5 else 4) ==> luck.steps(i) == Works
  {
    var luck' := luck.(unregister := unregister, close := close, removed := removed);
    var steps := if manual then MANUAL_STEPS else UNATTENDED_STEPS;
    SameSteps(RunCommand(w, RegisterVm, luck.register), steps, luck, luck', 0);
    NoStepFailed(RunCommand(w, RegisterVm, luck.register), steps, luck, 0);
  }

  lemma {:induction false} NoStepFailed(w: World, steps: seq<Command>, luck: Luck, i: nat)
    requires i <= |steps|
    ensures StepsRun(w, steps, luck, i).1.None? ==> forall j: nat :: i <= j < |steps| ==> luck.steps(j) == Works
    decreases |steps| - i
  {
    if i < |steps| && luck.steps(i) == Works {
      NoStepFailed(RunCommand(w, steps[i], luck.steps(i)), steps, luck, i + 1);
    }
  }

  // ---- which result is reported ----

  function StepCount(manual: bool): nat {
    if manual then 5 else 4
  }

  /** Registering, learning the identifier and building the disk path worked. */
  predicate Prepared(luck: Luck) {
    luck.register == Works && luck.uuidKnown && luck.pathOk
  }

  ghost predicate StepsWork(luck: Luck, n: nat) {
    forall i: nat :: i < n ==> luck.steps(i) == Works
  }

  lemma {:induction false} FailsAt(w: World, steps: seq<Command>, luck: Luck, i: nat, k: nat)
    requires i <= k < |steps| && luck.steps(k) != Works && forall j: nat :: i <= j < k ==> luck.steps(j) == Works
    ensures StepsRun(w, steps, luck, i).1 == Some(k)
    decreases |steps| - i
  {
    if i < k {
      FailsAt(RunCommand(w, steps[i], luck.steps(i)), steps, luck, i + 1, k);
    }
  }

  lemma InstallResult(w: World, luck: Luck)
    ensures Installed(w, luck).1 ==
            if luck.credential != Written then Failed(AtCredential) else if luck.install != Works then Failed(AtInstall) else Created
  {
  }

  /**
   The result follows from the host's decisions alone: Created exactly when everything
   worked, and otherwise the first thing, in order, that did not.
   */
  lemma ResultIff(w: World, luck: Luck, manual: bool, linux: bool)
    ensures var r := CreateRun(w, luck, manual, linux).1;
            var built := Prepared(luck) && StepsWork(luck, StepCount(manual));
            && (r == Created <==> built && (manual || (luck.credential == Written && luck.install == Works)))
            && (r == Failed(AtRegister) <==> luck.register != Works)
            && (r == Failed(AtUuid) <==> luck.register == Works && !luck.uuidKnown)
            && (r == Failed(AtPath) <==> luck.register == Works && luck.uuidKnown && !luck.pathOk)
            && (forall i: nat :: r == Failed(AtStep(i)) <==>
                  Prepared(luck) && i < StepCount(manual) && StepsWork(luck, i) && luck.steps(i) != Works)
            && (r == Failed(AtCredential) <==> built && !manual && luck.credential != Written)
            && (r == Failed(AtInstall) <==> built && !manual && luck.credential == Written && luck.install != Works)
  {
    if Prepared(luck) {
      var steps := if manual then MANUAL_STEPS else UNATTENDED_STEPS;
      var w1 := RunCommand(w, RegisterVm, luck.register);
      var (w2, failed) := StepsRun(w1, steps, luck, 0);
      StepsRunOk(w1, steps, luck);
      forall i: nat | i < StepCount(manual) && StepsWork(luck, i) && luck.steps(i) != Works
        ensures failed == Some(i)
      {
        FailsAt(w1, steps, luck, 0, i);
      }
      FirstFailure(w1, steps, luck, 0);
      InstallResult(if linux then RunCommand(w2, WireSerial, luck.serial) else w2, luck);
    }
  }

  lemma {:induction false} FirstFailure(w: World, steps: seq<Command>, luck: Luck, i: nat)
    requires i <= |steps|
    ensures var failed := StepsRun(w, steps, luck, i).1;
            failed.Some? ==>
              && i <= failed.value < |steps| && luck.steps(failed.value) != Works
              && forall j: nat :: i <= j < failed.value ==> luck.steps(j) == Works
    decreases |steps| - i
  {
    if i < |steps| && luck.steps(i) == Works {
      FirstFailure(RunCommand(w, steps[i], luck.steps(i)), steps, luck, i + 1);
    }
  }

  /** The call gets as far as writing a credential file. */
  ghost predicate WritesCredential(luck: Luck, manual: bool) {
    && !manual && luck.register == Works && luck.uuidKnown && luck.pathOk
    && (forall i: nat :: i < |UNATTENDED_STEPS| ==> luck.steps(i) == Works)
    && luck.credential != CreateFails
  }

  lemma {:induction false} StepsAllWork(w: World, steps: seq<Command>, luck: Luck, i: nat)
    requires i <= |steps| && forall j: nat :: i <= j < |steps| ==> luck.steps(j) == Works
    ensures StepsRun(w, steps, luck, i).1.None?
    decreases |steps| - i
  {
    if i < |steps| {
      StepsAllWork(RunCommand(w, steps[i], luck.steps(i)), steps, luck, i + 1);
    }
  }

  lemma StepsRunOk(w: World, steps: seq<Command>, luck: Luck)
    ensures StepsRun(w, steps, luck, 0).1.None? <==> forall j: nat :: j < |steps| ==> luck.steps(j) == Works
  {
    NoStepFailed(w, steps, luck, 0);
    if forall j: nat :: j < |steps| ==> luck.steps(j) == Works {
      StepsAllWork(w, steps, luck, 0);
    }
  }

  lemma CleanupKeepsCreds(w: World, luck: Luck, withDisk: bool)
    ensures CleanedUp(w, luck, withDisk).creds == w.creds
  {
  }

  lemma InstalledCreds(w: World, luck: Luck)
    requires luck.credentialFile !in w.creds
    ensures Installed(w, luck).0.creds == w.creds <==> luck.credential == CreateFails || luck.credentialRemoved
  {
    var w1 := w.(creds := w.creds + {luck.credentialFile});
    CleanupKeepsCreds(w, luck, true);
    CleanupKeepsCreds(WithoutCredential(w1, luck), luck, true);
    CleanupKeepsCreds(RunCommand(w1, ConfigureInstall, luck.install), luck, true);
    assert luck.credentialFile in w1.creds && w1.creds - {luck.credentialFile} == w.creds;
  }

  /**
   The credential files left by a call, on any path, are those it found, if and only
   if it never got as far as writing one or removing it works.
   */
  lemma NoCredentialLeft(w: World, luck: Luck, manual: bool, linux: bool)
    requires !w.registered && !w.disk && !w.attached && luck.credentialFile !in w.creds
    ensures CreateRun(w, luck, manual, linux).0.creds == w.creds <==> !WritesCredential(luck, manual) || luck.credentialRemoved
  {
    var steps := if manual then MANUAL_STEPS else UNATTENDED_STEPS;
    var w1 := RunCommand(w, RegisterVm, luck.register);
    CleanupKeepsCreds(w1, luck, false);
    if luck.register == Works && luck.uuidKnown && luck.pathOk {
      var w2 := StepsRun(w1, steps, luck, 0).0;
      AttachedHasDisk(w1, steps, luck, 0);
      StepsRunOk(w1, steps, luck);
      CleanupKeepsCreds(w2, luck, true);
      InstalledCreds(if linux then RunCommand(w2, WireSerial, luck.serial) else w2, luck);
    }
  }
}
