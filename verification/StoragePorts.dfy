/**
 Choosing a controller port for a new disk or a new optical drive, and what the
 storage commands do to a VM's attachments.
 */
module StoragePorts {
  import opened Common

  /** A controller as parsed from the VM's description, with the ports that hold a device. */
  datatype Controller = Controller(name: string, ahci: bool, portCount: int, maxPortCount: int, used: set<int>)

  /** bumpTo is the port count the controller must grow to first, or 0. */
  datatype Target = Target(name: string, port: int, bumpTo: int)

  datatype SataPick = Picked(target: Target) | ControllerFull | NoSataController

  // ---- the pickers ----

  /** The lowest port from p on that is not used, or n. */
  function LowestFree(used: set<int>, p: int, n: int): int
    decreases n - p
  {
    if p >= n || p !in used then p else LowestFree(used, p + 1, n)
  }

  function TargetIn(c: Controller): Option<Target> {
    var p := LowestFree(c.used, 0, c.portCount);
    if p < c.portCount then Some(Target(c.name, p, 0))
    else if c.ahci && c.portCount < c.maxPortCount then Some(Target(c.name, c.portCount, c.portCount + 1))
    else None
  }

  /** The target in the first controller, from number i on, that has one. */
  function FirstTarget(cs: seq<Controller>, sataOnly: bool, i: nat): Option<Target>
    requires i <= |cs|
    decreases |cs| - i
  {
    if i == |cs| then None
    else if (sataOnly && !cs[i].ahci) || TargetIn(cs[i]).None? then FirstTarget(cs, sataOnly, i + 1)
    else TargetIn(cs[i])
  }

  method FreePortIn(c: Controller) returns (port: int)
    ensures port == LowestFree(c.used, 0, c.portCount)
  {
    port := 0;
    while port < c.portCount && port in c.used
      invariant LowestFree(c.used, 0, c.portCount) == LowestFree(c.used, port, c.portCount)
      decreases c.portCount - port
    {
      port := port + 1;
    }
  }

  method PickSataTarget(cs: seq<Controller>) returns (pick: SataPick)
    ensures match FirstTarget(cs, true, 0)
            case Some(t) => pick == Picked(t)
            case None => pick == if exists c :: c in cs && c.ahci then ControllerFull else NoSataController
  {
    var sawSata := false;
    for i := 0 to |cs|
      invariant sawSata <==> exists k :: 0 <= k < i && cs[k].ahci
      invariant FirstTarget(cs, true, 0) == FirstTarget(cs, true, i)
    {
      var c := cs[i];
      if c.ahci {
        sawSata := true;
        var p := FreePortIn(c);
        if p < c.portCount {
          return Picked(Target(c.name, p, 0));
        }
        if c.portCount < c.maxPortCount {
          return Picked(Target(c.name, c.portCount, c.portCount + 1));
        }
      }
    }
    if sawSata {
      return ControllerFull;
    }
    return NoSataController;
  }

  method FreeControllerPort(cs: seq<Controller>, sataOnly: bool) returns (target: Option<Target>)
    ensures target == FirstTarget(cs, sataOnly, 0)
  {
    for i := 0 to |cs|
      invariant FirstTarget(cs, sataOnly, 0) == FirstTarget(cs, sataOnly, i)
    {
      var c := cs[i];
      if !(sataOnly && !c.ahci) {
        var p := FreePortIn(c);
        if p < c.portCount {
          return Some(Target(c.name, p, 0));
        }
        if c.ahci && c.portCount < c.maxPortCount {
          return Some(Target(c.name, c.portCount, c.portCount + 1));
        }
      }
    }
    return None;
  }

  function DvdTarget(cs: seq<Controller>): Option<Target> {
    if FirstTarget(cs, true, 0).Some? then FirstTarget(cs, true, 0) else FirstTarget(cs, false, 0)
  }

  method PickDvdTarget(cs: seq<Controller>) returns (target: Option<Target>)
    ensures target == DvdTarget(cs)
  {
    target := FreeControllerPort(cs, true);
    if target.None? {
      target := FreeControllerPort(cs, false);
    }
  }

  // ---- the pickers are sound and complete ----

  ghost predicate HasFreePort(c: Controller) {
    exists p :: 0 <= p < c.portCount && p !in c.used
  }

  /** A controller can take one more device: on a port it has, or on one it may grow. */
  ghost predicate HasRoom(c: Controller) {
    HasFreePort(c) || (c.ahci && c.portCount < c.maxPortCount)
  }

  lemma {:induction false} LowestFreeMeans(used: set<int>, p: int, n: int)
    ensures var q := LowestFree(used, p, n);
            && p <= q && (forall k :: p <= k < q ==> k in used) && (q < n ==> q !in used) && (p <= n ==> q <= n)
    decreases n - p
  {
    if p < n && p in used {
      LowestFreeMeans(used, p + 1, n);
    }
  }

  lemma TargetMeans(c: Controller)
    ensures match TargetIn(c)
            case None => !HasRoom(c)
            case Some(t) =>
              && HasRoom(c) && t.name == c.name
              && if HasFreePort(c) then t.bumpTo == 0 && 0 <= t.port < c.portCount && t.port !in c.used
                                        && forall k :: 0 <= k < t.port ==> k in c.used
                 else c.ahci && t.port == c.portCount && t.bumpTo == c.portCount + 1 <= c.maxPortCount
  {
    LowestFreeMeans(c.used, 0, c.portCount);
  }

  lemma {:induction false} FirstTargetMeans(cs: seq<Controller>, sataOnly: bool, i: nat)
    requires i <= |cs|
    ensures match FirstTarget(cs, sataOnly, i)
            case None => forall k :: i <= k < |cs| && (sataOnly ==> cs[k].ahci) ==> !HasRoom(cs[k])
            case Some(t) =>
              exists k :: i <= k < |cs| && (sataOnly ==> cs[k].ahci) && TargetIn(cs[k]) == Some(t)
                && forall j :: i <= j < k && (sataOnly ==> cs[j].ahci) ==> !HasRoom(cs[j])
    decreases |cs| - i
  {
    if i < |cs| {
      TargetMeans(cs[i]);
      FirstTargetMeans(cs, sataOnly, i + 1);
      if (sataOnly && !cs[i].ahci) || TargetIn(cs[i]).None? {
        var rest := FirstTarget(cs, sataOnly, i + 1);
        if rest.Some? {
          var k :| i + 1 <= k < |cs| && (sataOnly ==> cs[k].ahci) && TargetIn(cs[k]) == rest
            && forall j :: i + 1 <= j < k && (sataOnly ==> cs[j].ahci) ==> !HasRoom(cs[j]);
        }
      }
    }
  }

  /**
   Adding a disk finds no target exactly when no AHCI controller has a free or
   growable port; mounting a DVD finds none exactly when no controller has one.
   */
  lemma PickersComplete(cs: seq<Controller>)
    ensures FirstTarget(cs, true, 0).None? <==> forall c :: c in cs && c.ahci ==> !HasRoom(c)
    ensures DvdTarget(cs).None? <==> forall c :: c in cs ==> !HasRoom(c)
  {
    FirstTargetMeans(cs, true, 0);
    FirstTargetMeans(cs, false, 0);
    forall c | c in cs
      ensures FirstTarget(cs, false, 0).None? ==> !HasRoom(c)
      ensures FirstTarget(cs, true, 0).None? && c.ahci ==> !HasRoom(c)
    {
      var k :| 0 <= k < |cs| && cs[k] == c;
    }
    forall k | 0 <= k < |cs|
      ensures TargetIn(cs[k]).Some? ==> HasRoom(cs[k]) && cs[k] in cs
    {
      TargetMeans(cs[k]);
    }
  }

  /**
   A new optical drive goes to the first AHCI controller with room if there is one,
   and otherwise to the first controller of any kind with room.
   */
  lemma DvdPrefersSata(cs: seq<Controller>)
    requires DvdTarget(cs).Some?
    ensures exists k :: 0 <= k < |cs| && TargetIn(cs[k]) == DvdTarget(cs) && HasRoom(cs[k])
              && if cs[k].ahci then forall j :: 0 <= j < k && cs[j].ahci ==> !HasRoom(cs[j])
                 else (forall j :: 0 <= j < |cs| && cs[j].ahci ==> !HasRoom(cs[j])) && forall j :: 0 <= j < k ==> !HasRoom(cs[j])
  {
    FirstTargetMeans(cs, true, 0);
    FirstTargetMeans(cs, false, 0);
    var sata := FirstTarget(cs, true, 0).Some?;
    var k :| 0 <= k < |cs| && (sata ==> cs[k].ahci) && TargetIn(cs[k]) == DvdTarget(cs)
      && forall j :: 0 <= j < k && (sata ==> cs[j].ahci) ==> !HasRoom(cs[j]);
    TargetMeans(cs[k]);
  }

  // ---- runs of storage commands on one VM ----

  datatype Slot = Slot(controller: string, port: int, device: int)

  datatype Medium = Disk(uuid: string) | Dvd(iso: Option<string>)

  datatype Bus = Bus(name: string, ahci: bool, portCount: int, maxPortCount: int)

  datatype Storage = Storage(buses: seq<Bus>, slots: map<Slot, Medium>)

  function UsedOn(slots: map<Slot, Medium>, name: string): set<int> {
    set s | s in slots && s.controller == name :: s.port
  }

  /** What reading the VM's description gives the pickers. */
  function Parsed(st: Storage): seq<Controller> {
    seq(|st.buses|, i requires 0 <= i < |st.buses| =>
      Controller(st.buses[i].name, st.buses[i].ahci, st.buses[i].portCount, st.buses[i].maxPortCount, UsedOn(st.slots, st.buses[i].name)))
  }

  /** The pickers see each controller as it is, with just the ports that hold a device. */
  lemma ParsedMeans(st: Storage, i: nat)
    requires i < |st.buses|
    ensures |Parsed(st)| == |st.buses|
    ensures var c, b := Parsed(st)[i], st.buses[i];
            && c.name == b.name && c.ahci == b.ahci && c.portCount == b.portCount && c.maxPortCount == b.maxPortCount
            && forall p :: p in c.used <==> exists s :: s in st.slots && s.controller == b.name && s.port == p
  {
  }

  /** Setting the port count of the controllers of that name. */
  function Grown(buses: seq<Bus>, name: string, portCount: int): seq<Bus> {
    seq(|buses|, i requires 0 <= i < |buses| => if buses[i].name == name then buses[i].(portCount := portCount) else buses[i])
  }

  const MAX_FILES := 1000

  /** The first number from n on whose image file does not exist. */
  function FirstAbsent(absent: nat -> bool, n: nat): Option<nat>
    requires n <= MAX_FILES + 1
    decreases MAX_FILES + 1 - n
  {
    if n > MAX_FILES then None else if absent(n) then Some(n) else FirstAbsent(absent, n + 1)
  }

  lemma {:induction false} FirstAbsentMeans(absent: nat -> bool, n: nat)
    requires n <= MAX_FILES + 1
    ensures match FirstAbsent(absent, n)
            case None => forall k :: n <= k <= MAX_FILES ==> !absent(k)
            case Some(m) => n <= m <= MAX_FILES && absent(m) && forall k :: n <= k < m ==> !absent(k)
    decreases MAX_FILES + 1 - n
  {
    if n <= MAX_FILES {
      FirstAbsentMeans(absent, n + 1);
    }
  }

  /** The name of a new image is numbered from 1; a number whose file may exist is passed over. */
  method NextDiskNumber(absent: nat -> bool) returns (number: Option<nat>)
    ensures match number
            case None => forall k :: 1 <= k <= MAX_FILES ==> !absent(k)
            case Some(m) => 1 <= m <= MAX_FILES && absent(m) && forall k :: 1 <= k < m ==> !absent(k)
    ensures number == FirstAbsent(absent, 1)
  {
    var n := 1;
    while n <= MAX_FILES
      invariant 1 <= n <= MAX_FILES + 1
      invariant forall k :: 1 <= k < n ==> !absent(k)
      invariant FirstAbsent(absent, 1) == FirstAbsent(absent, n)
    {
      if absent(n) {
        return Some(n);
      }
      n := n + 1;
    }
    return None;
  }

  /** Growing if needed, then attaching; a failed command ends the operation. */
  function AttachAt(st: Storage, t: Target, device: int, m: Medium, grows: bool, attaches: bool): Storage {
    if t.bumpTo > 0 && !grows then st
    else
      var st' := if t.bumpTo > 0 then st.(buses := Grown(st.buses, t.name, t.bumpTo)) else st;
      if attaches then st'.(slots := st'.slots[Slot(t.name, t.port, device) := m]) else st'
  }

  /**
   drive is the optical drive the description shows, None if it shows none or
   could not be read. at is where the description shows the disk to detach. live
   and folder are whether the VM was read as live and its folder is known, and
   absent tells which numbered image files do not exist.
   */
  datatype Step =
    | AddDisk(uuid: string, live: bool, folder: bool, absent: nat -> bool, creates: bool, grows: bool, attaches: bool)
    | MountDvd(iso: string, drive: Option<Slot>, grows: bool, attaches: bool)
    | DetachDisk(at: Slot, detaches: bool)

  predicate StepOk(st: Storage, s: Step) {
    match s
    case AddDisk(_, _, _, _, _, _, _) => true
    case MountDvd(_, drive, _, _) => drive.Some? ==> drive.value in st.slots && st.slots[drive.value].Dvd?
    case DetachDisk(at, _) => at in st.slots
  }

  function Apply(st: Storage, s: Step): Storage
    requires StepOk(st, s)
  {
    match s
    case AddDisk(uuid, live, folder, absent, creates, grows, attaches) =>
      (match FirstTarget(Parsed(st), true, 0)
       case None => st
       case Some(t) =>
         if !live && folder && FirstAbsent(absent, 1).Some? && creates then AttachAt(st, t, 0, Disk(uuid), grows, attaches) else st)
    case MountDvd(iso, drive, grows, attaches) =>
      if drive.Some? then
        if attaches then st.(slots := st.slots[drive.value := Dvd(Some(iso))]) else st
      else
        (match DvdTarget(Parsed(st))
         case None => st
         case Some(t) => AttachAt(st, t, 0, Dvd(Some(iso)), grows, attaches))
    case DetachDisk(at, detaches) => if detaches then st.(slots := st.slots - {at}) else st
  }

  /** How adding a disk ends: refused, or its commands were issued for this port and image number. */
  datatype AddResult = NotStopped | NoTarget | NoFolder | NoFileName | Tried(target: Target, file: nat)

  /** The storage commands, on one VM's attachments. */
  class VmStorage {
    var st: Storage

    constructor (st: Storage)
      ensures this.st == st
    {
      this.st := st;
    }

    method Attach(t: Target, m: Medium, grows: bool, attaches: bool)
      modifies this
      ensures st == AttachAt(old(st), t, 0, m, grows, attaches)
    {
      if t.bumpTo > 0 {
        if !grows {
          return;
        }
        st := st.(buses := Grown(st.buses, t.name, t.bumpTo));
      }
      if attaches {
        st := st.(slots := st.slots[Slot(t.name, t.port, 0) := m]);
      }
    }

    method AddNewDisk(uuid: string, live: bool, folder: bool, absent: nat -> bool, creates: bool, grows: bool, attaches: bool)
      returns (r: AddResult)
      modifies this
      ensures st == Apply(old(st), AddDisk(uuid, live, folder, absent, creates, grows, attaches))
      ensures r == NotStopped <==> live
      ensures r == NoTarget <==> !live && FirstTarget(Parsed(old(st)), true, 0).None?
      ensures r == NoFileName ==> forall k :: 1 <= k <= MAX_FILES ==> !absent(k)
      ensures r.Tried? ==> !live && folder && absent(r.file) && 1 <= r.file <= MAX_FILES
      ensures r.Tried? ==> Some(r.target) == FirstTarget(Parsed(old(st)), true, 0)
      ensures !r.Tried? ==> st == old(st)
    {
      if live {
        return NotStopped;
      }
      var pick := PickSataTarget(Parsed(st));
      if !pick.Picked? {
        return NoTarget;
      }
      if !folder {
        return NoFolder;
      }
      var file := NextDiskNumber(absent);
      if file.None? {
        return NoFileName;
      }
      if creates {
        Attach(pick.target, Disk(uuid), grows, attaches);
      }
      return Tried(pick.target, file.value);
    }

    method MountIso(iso: string, drive: Option<Slot>, grows: bool, attaches: bool) returns (found: bool)
      requires StepOk(st, MountDvd(iso, drive, grows, attaches))
      modifies this
      ensures st == Apply(old(st), MountDvd(iso, drive, grows, attaches))
      ensures found <==> drive.Some? || DvdTarget(Parsed(old(st))).Some?
    {
      if drive.Some? {
        if attaches {
          st := st.(slots := st.slots[drive.value := Dvd(Some(iso))]);
        }
        return true;
      }
      var target := PickDvdTarget(Parsed(st));
      if target.None? {
        return false;
      }
      Attach(target.value, Dvd(Some(iso)), grows, attaches);
      return true;
    }

    method Detach(at: Slot, detaches: bool)
      requires at in st.slots
      modifies this
      ensures st == Apply(old(st), DetachDisk(at, detaches))
    {
      if detaches {
        st := st.(slots := st.slots - {at});
      }
    }
  }

  /** Controllers have distinct names, and every device sits on a port its controller has. */
  ghost predicate Inv(st: Storage) {
    && (forall i, j :: 0 <= i < j < |st.buses| ==> st.buses[i].name != st.buses[j].name)
    && (forall b :: b in st.buses ==> 0 <= b.portCount <= b.maxPortCount)
    && (forall s, b :: s in st.slots && b in st.buses && b.name == s.controller ==> 0 <= s.port < b.portCount)
  }

  /** A target a picker may return: a real controller, and a port with nothing on it. */
  ghost predicate FreshTarget(st: Storage, t: Target) {
    exists b :: HasBus(st, b) && b.name == t.name
      && 0 <= t.port < (if t.bumpTo > 0 then t.bumpTo else b.portCount)
      && (t.bumpTo > 0 ==> b.portCount < t.bumpTo <= b.maxPortCount)
      && forall s :: s in st.slots && s.controller == t.name ==> s.port != t.port
  }

  /** No newly allocated port was occupied, whichever picker chose it. */
  lemma TargetsAreFresh(st: Storage, sataOnly: bool)
    requires Inv(st) && FirstTarget(Parsed(st), sataOnly, 0).Some?
    ensures FreshTarget(st, FirstTarget(Parsed(st), sataOnly, 0).value)
  {
    var cs, t := Parsed(st), FirstTarget(Parsed(st), sataOnly, 0).value;
    FirstTargetMeans(cs, sataOnly, 0);
    var k :| 0 <= k < |cs| && TargetIn(cs[k]) == Some(t);
    TargetMeans(cs[k]);
    var b := st.buses[k];
    assert HasBus(st, b);
    forall s | s in st.slots && s.controller == t.name
      ensures s.port != t.port
    {
      assert s.port in UsedOn(st.slots, t.name);
    }
  }

  ghost predicate HasBus(st: Storage, b: Bus) {
    b in st.buses
  }

  /** Growing a controller within its maximum keeps the invariant and gives that controller that many ports. */
  lemma GrowKeepsInv(st: Storage, b: Bus, n: int)
    requires Inv(st) && HasBus(st, b) && b.portCount <= n <= b.maxPortCount
    ensures Inv(st.(buses := Grown(st.buses, b.name, n)))
    ensures forall c :: c in Grown(st.buses, b.name, n) && c.name == b.name ==> c.portCount == n
  {
    var j :| 0 <= j < |st.buses| && st.buses[j] == b;
    var grown := Grown(st.buses, b.name, n);
    forall c | c in grown
      ensures 0 <= c.portCount <= c.maxPortCount
      ensures forall s :: s in st.slots && s.controller == c.name ==> 0 <= s.port < c.portCount
    {
      var i :| 0 <= i < |grown| && grown[i] == c;
      assert st.buses[i] in st.buses && st.buses[i].name == c.name;
      assert c.name == b.name ==> i == j;
    }
  }

  lemma PutKeepsInv(st: Storage, slot: Slot, m: Medium)
    requires Inv(st) && forall b :: b in st.buses && b.name == slot.controller ==> 0 <= slot.port < b.portCount
    ensures Inv(st.(slots := st.slots[slot := m]))
  {
  }

  lemma OneBusOfName(st: Storage, b: Bus, c: Bus)
    requires Inv(st) && HasBus(st, b) && HasBus(st, c) && b.name == c.name
    ensures b == c
  {
  }

  lemma AttachKeepsInv(st: Storage, t: Target, m: Medium, grows: bool, attaches: bool)
    requires Inv(st) && FreshTarget(st, t)
    ensures var st' := AttachAt(st, t, 0, m, grows, attaches);
            Inv(st') && forall s :: s in st.slots ==> s in st'.slots && st'.slots[s] == st.slots[s]
  {
    var b :| HasBus(st, b) && b.name == t.name
      && 0 <= t.port < (if t.bumpTo > 0 then t.bumpTo else b.portCount)
      && (t.bumpTo > 0 ==> b.portCount < t.bumpTo <= b.maxPortCount);
    if t.bumpTo > 0 {
      if grows {
        GrowKeepsInv(st, b, t.bumpTo);
        PutKeepsInv(st.(buses := Grown(st.buses, t.name, t.bumpTo)), Slot(t.name, t.port, 0), m);
      }
    } else {
      forall c | c in st.buses && c.name == t.name
        ensures c == b
      {
        OneBusOfName(st, b, c);
      }
      PutKeepsInv(st, Slot(t.name, t.port, 0), m);
    }
  }

  /**
   One step keeps every device on a port its controller has, and the only disk it
   can take away from its slot is the one it was asked to detach.
   */
  lemma StepKeepsInv(st: Storage, s: Step)
    requires Inv(st) && StepOk(st, s)
    ensures Inv(Apply(st, s))
    ensures forall x :: x in st.slots && st.slots[x].Disk? && !(s.DetachDisk? && s.at == x) ==>
              x in Apply(st, s).slots && Apply(st, s).slots[x] == st.slots[x]
  {
    match s {
      case AddDisk(uuid, _, _, _, _, grows, attaches) =>
        if FirstTarget(Parsed(st), true, 0).Some? {
          TargetsAreFresh(st, true);
          AttachKeepsInv(st, FirstTarget(Parsed(st), true, 0).value, Disk(uuid), grows, attaches);
        }
      case MountDvd(iso, drive, grows, attaches) =>
        if drive.None? && DvdTarget(Parsed(st)).Some? {
          TargetsAreFresh(st, FirstTarget(Parsed(st), true, 0).Some?);
          AttachKeepsInv(st, DvdTarget(Parsed(st)).value, Dvd(Some(iso)), grows, attaches);
        }
      case DetachDisk(_, _) =>
    }
  }

  // ---- what a command that works leaves ----

  /** The same controllers, but that the one named has the given number of ports. */
  predicate OnlyGrows(before: seq<Bus>, after: seq<Bus>, name: string, portCount: int) {
    |after| == |before| &&
    forall i :: 0 <= i < |before| ==>
      after[i] == if before[i].name == name then before[i].(portCount := portCount) else before[i]
  }

  /**
   Adding a disk whose commands all work puts just that disk on the port picked, as
   device 0, and grows its controller by that port if it was a new one.
   */
  lemma AddDiskDoes(st: Storage, uuid: string, absent: nat -> bool)
    requires FirstTarget(Parsed(st), true, 0).Some? && FirstAbsent(absent, 1).Some?
    ensures var t := FirstTarget(Parsed(st), true, 0).value;
            var st' := Apply(st, AddDisk(uuid, false, true, absent, true, true, true));
            && st'.slots == st.slots[Slot(t.name, t.port, 0) := Disk(uuid)]
            && (if t.bumpTo > 0 then OnlyGrows(st.buses, st'.buses, t.name, t.port + 1) else st'.buses == st.buses)
  {
    FirstTargetMeans(Parsed(st), true, 0);
    forall k | 0 <= k < |st.buses|
      ensures match TargetIn(Parsed(st)[k]) case None => true case Some(t) => t.bumpTo > 0 ==> t.bumpTo == t.port + 1
    {
      TargetMeans(Parsed(st)[k]);
    }
  }

  /** Nothing is added to a live VM, nor when there is no port, folder or file name for the disk, or it cannot be created. */
  lemma AddDiskRefused(st: Storage, s: Step)
    requires s.AddDisk?
    requires s.live || !s.folder || !s.creates || FirstTarget(Parsed(st), true, 0).None? || FirstAbsent(s.absent, 1).None?
    ensures Apply(st, s) == st
  {
  }

  /** Mounting an ISO with commands that work leaves it in the drive there was, or else in a new one on the port picked. */
  lemma MountDoes(st: Storage, iso: string, drive: Option<Slot>)
    requires StepOk(st, MountDvd(iso, drive, true, true)) && (drive.Some? || DvdTarget(Parsed(st)).Some?)
    ensures var st' := Apply(st, MountDvd(iso, drive, true, true));
            var slot := if drive.Some? then drive.value else Slot(DvdTarget(Parsed(st)).value.name, DvdTarget(Parsed(st)).value.port, 0);
            st'.slots == st.slots[slot := Dvd(Some(iso))]
  {
  }

  lemma DetachDoes(st: Storage, at: Slot)
    requires at in st.slots
    ensures var st' := Apply(st, DetachDisk(at, true));
            at !in st'.slots && st'.buses == st.buses && st'.slots == map s | s in st.slots && s != at :: st.slots[s]
  {
  }

  predicate RunOk(st: Storage, steps: seq<Step>)
    decreases |steps|
  {
    steps != [] ==> StepOk(st, steps[0]) && RunOk(Apply(st, steps[0]), steps[1..])
  }

  function Run(st: Storage, steps: seq<Step>): Storage
    requires RunOk(st, steps)
    decreases |steps|
  {
    if steps == [] then st else Run(Apply(st, steps[0]), steps[1..])
  }

  /** Over every run: ports stay within bounds, and a disk keeps its slot unless it is detached from it. */
  lemma {:induction false} RunKeepsDisks(st: Storage, steps: seq<Step>, x: Slot)
    requires Inv(st) && RunOk(st, steps)
    ensures Inv(Run(st, steps))
    ensures x in st.slots && st.slots[x].Disk? && (forall s :: s in steps && s.DetachDisk? ==> s.at != x) ==>
              x in Run(st, steps).slots && Run(st, steps).slots[x] == st.slots[x]
    decreases |steps|
  {
    if steps != [] {
      StepKeepsInv(st, steps[0]);
      RunKeepsDisks(Apply(st, steps[0]), steps[1..], x);
    }
  }
}
