/**
 Choosing the VRDE port of a VM's console: keep the current port, else reuse the
 persisted one, else probe the thousand ports of the range in cyclic order from
 one derived from the VM's identifier.
 */
module ConsolePorts {
  import opened Common

  const MIN_PORT := 5000
  const MAX_PORT := 5999
  const RANGE := MAX_PORT - MIN_PORT + 1

  predicate IsValidConsolePort(port: int) {
    MIN_PORT <= port <= MAX_PORT
  }

  /** The port probed at an offset from the start. */
  function Candidate(start: int, offset: nat): (port: int)
    requires IsValidConsolePort(start)
    ensures IsValidConsolePort(port)
  {
    MIN_PORT + (start - MIN_PORT + offset) % RANGE
  }

  /** The offset at which a port is probed. */
  function OffsetOf(start: int, port: int): (offset: nat)
    requires IsValidConsolePort(start) && IsValidConsolePort(port)
    ensures offset < RANGE
  {
    (port - start + RANGE) % RANGE
  }

  /** The probe visits every port of the range exactly once. */
  lemma ProbeVisitsEachOnce(start: int, port: int, offset: nat)
    requires IsValidConsolePort(start) && IsValidConsolePort(port) && offset < RANGE
    ensures Candidate(start, offset) == port <==> offset == OffsetOf(start, port)
  {
  }

  /** First free port at or after the given offset of the probe. */
  function FirstFree(start: int, occupied: int -> bool, offset: nat): Option<int>
    requires IsValidConsolePort(start) && offset <= RANGE
    decreases RANGE - offset
  {
    if offset == RANGE then None
    else if !occupied(Candidate(start, offset)) then Some(Candidate(start, offset))
    else FirstFree(start, occupied, offset + 1)
  }

  /** A port earlier than p in the cyclic order from start. */
  predicate ProbedBefore(start: int, q: int, p: int)
    requires IsValidConsolePort(start) && IsValidConsolePort(p) && IsValidConsolePort(q)
  {
    OffsetOf(start, q) < OffsetOf(start, p)
  }

  lemma {:induction false} FirstFreeMeans(start: int, occupied: int -> bool, offset: nat)
    requires IsValidConsolePort(start) && offset <= RANGE
    ensures match FirstFree(start, occupied, offset)
            case None => forall p :: IsValidConsolePort(p) && OffsetOf(start, p) >= offset ==> occupied(p)
            case Some(p) =>
              && IsValidConsolePort(p) && OffsetOf(start, p) >= offset && !occupied(p)
              && forall q :: IsValidConsolePort(q) && offset <= OffsetOf(start, q) && ProbedBefore(start, q, p) ==> occupied(q)
    decreases RANGE - offset
  {
    if offset < RANGE {
      var c := Candidate(start, offset);
      ProbeVisitsEachOnce(start, c, offset);
      forall p | IsValidConsolePort(p) && OffsetOf(start, p) == offset
        ensures p == c
      {
        ProbeVisitsEachOnce(start, p, offset);
      }
      if occupied(c) {
        FirstFreeMeans(start, occupied, offset + 1);
      }
    }
  }

  /** current and persisted are 0 when there is none. */
  function Chosen(current: int, persisted: int, start: int, occupied: int -> bool): Option<int>
    requires IsValidConsolePort(start)
  {
    if current != 0 && !occupied(current) then Some(current)
    else if persisted != 0 && !occupied(persisted) then Some(persisted)
    else FirstFree(start, occupied, 0)
  }

  method FindConsolePort(current: int, persisted: int, start: int, occupied: int -> bool) returns (port: Option<int>)
    requires IsValidConsolePort(start)
    ensures port == Chosen(current, persisted, start, occupied)
  {
    if current != 0 && !occupied(current) {
      return Some(current);
    }
    if persisted != 0 && !occupied(persisted) {
      return Some(persisted);
    }
    var offset := 0;
    while offset < RANGE
      invariant offset <= RANGE
      invariant FirstFree(start, occupied, 0) == FirstFree(start, occupied, offset)
    {
      var candidate := MIN_PORT + (start - MIN_PORT + offset) % RANGE;
      if !occupied(candidate) {
        return Some(candidate);
      }
      offset := offset + 1;
    }
    return None;
  }

  /**
   The search fails if and only if neither the current nor the persisted port can
   be kept and all thousand ports are occupied. Otherwise the port is free: the
   current one if that is, else the persisted one if that is, else the first free
   one in cyclic order from the start.
   */
  lemma ChosenMeans(current: int, persisted: int, start: int, occupied: int -> bool)
    requires IsValidConsolePort(start)
    ensures var kept := (current != 0 && !occupied(current)) || (persisted != 0 && !occupied(persisted));
            match Chosen(current, persisted, start, occupied)
            case None => !kept && forall p :: IsValidConsolePort(p) ==> occupied(p)
            case Some(port) =>
              && !occupied(port)
              && (current != 0 && !occupied(current) ==> port == current)
              && ((current == 0 || occupied(current)) && persisted != 0 && !occupied(persisted) ==> port == persisted)
              && (!kept ==> IsValidConsolePort(port) && forall q :: IsValidConsolePort(q) && ProbedBefore(start, q, port) ==> occupied(q))
  {
    FirstFreeMeans(start, occupied, 0);
  }

  // ---- runs over all VMs ----

  /** A VM's remote display: whether it is on, and on which port. */
  datatype Vrde = Vrde(enabled: bool, port: int)

  /** The registered VMs. */
  type Host = map<string, Vrde>

  /** The ports another VM's enabled display uses, as the scan over all other VMs collects them. */
  function UsedPorts(host: Host, id: string): set<int> {
    set other | other in host && other != id && host[other].enabled && IsValidConsolePort(host[other].port) :: host[other].port
  }

  method CollectUsedPorts(host: Host, id: string) returns (used: set<int>)
    ensures used == UsedPorts(host, id)
    ensures forall p :: p in used <==>
              exists other :: other in host && other != id && host[other].enabled && host[other].port == p && 5000 <= p <= 5999
  {
    var todo := host.Keys;
    used := {};
    while todo != {}
      invariant todo <= host.Keys
      invariant used == set other | other in host && other !in todo && other != id && host[other].enabled && IsValidConsolePort(host[other].port) :: host[other].port
      decreases todo
    {
      var vm :| vm in todo;
      if vm != id && host[vm].enabled && IsValidConsolePort(host[vm].port) {
        used := used + {host[vm].port};
      }
      todo := todo - {vm};
    }
  }

  /** 0 when the display is off or its port is out of range. */
  function CurrentPort(host: Host, id: string): int
    requires id in host
  {
    if host[id].enabled && IsValidConsolePort(host[id].port) then host[id].port else 0
  }

  /** The displays, and the port saved for each VM. */
  datatype Consoles = Consoles(host: Host, saved: map<string, int>)

  /** 0 when no port is saved or the saved one is out of range. */
  function SavedPort(saved: map<string, int>, id: string): int {
    if id in saved && IsValidConsolePort(saved[id]) then saved[id] else 0
  }

  /** What the status read after the command says: whether the console is ready, and on which port. */
  datatype Reading = Reading(ready: bool, port: int)

  /** The port to save: the one the status shows if the console is ready, else the one asked for. */
  function VerifiedPort(status: Reading, port: int): int {
    if status.ready && status.port != 0 && IsValidConsolePort(status.port) then status.port else port
  }

  /**
   What the environment decides about preparing a console: where the probe starts,
   which ports cannot be bound, whether the modify command took effect and whether
   it reported success, the status read afterwards (None: it fails), and whether
   saving works.
   */
  datatype Luck = Luck(start: int, unbindable: int -> bool, applied: bool, ok: bool, status: Option<Reading>, saves: bool)

  datatype Step = Prepare(id: string, luck: Luck) | Disable(id: string, applied: bool)

  predicate StepOk(c: Consoles, s: Step) {
    s.id in c.host && (s.Prepare? ==> IsValidConsolePort(s.luck.start))
  }

  /** Assigned to another VM, or not bindable here. */
  function Occupied(host: Host, id: string, unbindable: int -> bool): int -> bool {
    p => p in UsedPorts(host, id) || unbindable(p)
  }

  function PreparedPort(c: Consoles, id: string, luck: Luck): Option<int>
    requires id in c.host && IsValidConsolePort(luck.start)
  {
    Chosen(CurrentPort(c.host, id), SavedPort(c.saved, id), luck.start, Occupied(c.host, id, luck.unbindable))
  }

  function Apply(c: Consoles, s: Step): Consoles
    requires StepOk(c, s)
  {
    match s
    case Prepare(id, luck) =>
      (match PreparedPort(c, id, luck)
       case None => c
       case Some(port) =>
         Consoles(if luck.applied then c.host[id := Vrde(true, port)] else c.host,
                  if luck.ok && luck.status.Some? && luck.saves then c.saved[id := VerifiedPort(luck.status.value, port)] else c.saved))
    case Disable(id, applied) =>
      if applied then c.(host := c.host[id := c.host[id].(enabled := false)]) else c
  }

  /** The two operations on the registered VMs' displays. */
  class ConsoleService {
    var host: Host
    var saved: map<string, int>

    function View(): Consoles
      reads this
    {
      Consoles(host, saved)
    }

    constructor (c: Consoles)
      ensures View() == c
    {
      host, saved := c.host, c.saved;
    }

    method PersistConsolePort(id: string, port: int, saves: bool)
      modifies `saved
      ensures saved == if saves then old(saved)[id := port] else old(saved)
    {
      if saves {
        saved := saved[id := port];
      }
    }

    /** The status shown if all goes well. */
    method PrepareVmConsole(id: string, luck: Luck) returns (status: Option<Reading>)
      requires StepOk(View(), Prepare(id, luck))
      modifies this
      ensures View() == Apply(old(View()), Prepare(id, luck))
      ensures status == if PreparedPort(old(View()), id, luck).Some? && luck.ok then luck.status else None
      ensures status.Some? && luck.saves && !status.value.ready ==>
                id in saved && Some(saved[id]) == PreparedPort(old(View()), id, luck)
    {
      var persisted := if id in saved && IsValidConsolePort(saved[id]) then saved[id] else 0;
      var used := CollectUsedPorts(host, id);
      var unbindable := luck.unbindable;
      var occupied := p => p in used || unbindable(p);
      var port := FindConsolePort(CurrentPort(host, id), persisted, luck.start, occupied);
      SameChoice(CurrentPort(host, id), persisted, luck.start, occupied, Occupied(host, id, unbindable));
      if port.None? {
        return None;
      }
      if luck.applied {
        host := host[id := Vrde(true, port.value)];
      }
      if !luck.ok || luck.status.None? {
        return None;
      }
      status := luck.status;
      var verified := port.value;
      if status.value.ready && status.value.port != 0 && IsValidConsolePort(status.value.port) {
        verified := status.value.port;
      }
      PersistConsolePort(id, verified, luck.saves);
    }

    method DisableVmConsole(id: string, applied: bool)
      requires id in host
      modifies this
      ensures View() == Apply(old(View()), Disable(id, applied))
    {
      if applied {
        host := host[id := host[id].(enabled := false)];
      }
    }
  }

  /** The choice depends only on which ports are occupied. */
  lemma SameChoice(current: int, persisted: int, start: int, a: int -> bool, b: int -> bool)
    requires IsValidConsolePort(start) && forall p :: a(p) == b(p)
    ensures Chosen(current, persisted, start, a) == Chosen(current, persisted, start, b)
  {
    SameFirstFree(start, a, b, 0);
  }

  lemma {:induction false} SameFirstFree(start: int, a: int -> bool, b: int -> bool, offset: nat)
    requires IsValidConsolePort(start) && offset <= RANGE && forall p :: a(p) == b(p)
    ensures FirstFree(start, a, offset) == FirstFree(start, b, offset)
    decreases RANGE - offset
  {
    if offset < RANGE {
      SameFirstFree(start, a, b, offset + 1);
    }
  }

  // ---- what the operations leave ----

  /**
   A preparation that found a port and took effect leaves the VM's display on at it,
   and saves, if both commands succeed, the port the status confirms or else that
   one; without a port nothing changes. No other VM is touched either way.
   */
  lemma PrepareDoes(c: Consoles, id: string, luck: Luck)
    requires StepOk(c, Prepare(id, luck))
    ensures var c', port := Apply(c, Prepare(id, luck)), PreparedPort(c, id, luck);
            && (port.None? ==> c' == c)
            && (port.Some? ==>
                  && (if luck.applied then id in c'.host && c'.host[id].enabled && c'.host[id].port == port.value else c'.host == c.host)
                  && (if luck.ok && luck.status.Some? && luck.saves then
                        id in c'.saved && c'.saved[id] ==
                          (if luck.status.value.ready && 5000 <= luck.status.value.port <= 5999 then luck.status.value.port else port.value)
                      else c'.saved == c.saved))
            && (forall other :: other != id ==>
                  && (other in c'.host <==> other in c.host) && (other in c.host ==> c'.host[other] == c.host[other])
                  && (other in c'.saved <==> other in c.saved) && (other in c.saved ==> c'.saved[other] == c.saved[other]))
  {
  }

  /** A VM whose display is on at a port of the range that is still free keeps it. */
  lemma CurrentPortKept(c: Consoles, id: string, luck: Luck)
    requires StepOk(c, Prepare(id, luck)) && c.host[id].enabled && 5000 <= c.host[id].port <= 5999
    requires !luck.unbindable(c.host[id].port)
    requires forall other :: other in c.host && other != id && c.host[other].enabled ==> c.host[other].port != c.host[id].port
    ensures PreparedPort(c, id, luck) == Some(c.host[id].port)
  {
  }

  lemma DisableDoes(c: Consoles, id: string)
    requires id in c.host
    ensures var c' := Apply(c, Disable(id, true));
            && id in c'.host && !c'.host[id].enabled && c'.saved == c.saved
            && c'.host.Keys == c.host.Keys && forall other :: other in c.host && other != id ==> c'.host[other] == c.host[other]
    ensures Apply(c, Disable(id, false)) == c
  {
  }

  // ---- consoles never share a port ----

  /** No two VMs have their displays on at the same port of the range. */
  ghost predicate Distinct(host: Host) {
    forall a, b :: a in host && b in host && a != b && host[a].enabled && host[b].enabled && IsValidConsolePort(host[a].port) ==>
      host[a].port != host[b].port
  }

  predicate RunOk(c: Consoles, steps: seq<Step>)
    decreases |steps|
  {
    steps != [] ==> StepOk(c, steps[0]) && RunOk(Apply(c, steps[0]), steps[1..])
  }

  function Run(c: Consoles, steps: seq<Step>): Consoles
    requires RunOk(c, steps)
    decreases |steps|
  {
    if steps == [] then c else Run(Apply(c, steps[0]), steps[1..])
  }

  lemma StepKeepsDistinct(c: Consoles, s: Step)
    requires Distinct(c.host) && StepOk(c, s)
    ensures Distinct(Apply(c, s).host)
  {
    if s.Prepare? {
      var port := PreparedPort(c, s.id, s.luck);
      ChosenMeans(CurrentPort(c.host, s.id), SavedPort(c.saved, s.id), s.luck.start, Occupied(c.host, s.id, s.luck.unbindable));
      assert port.Some? ==> port.value !in UsedPorts(c.host, s.id);
    }
  }

  /** Over any run of non-overlapping prepare and disable steps, consoles never share a port. */
  lemma {:induction false} PortsStayDistinct(c: Consoles, steps: seq<Step>)
    requires Distinct(c.host) && RunOk(c, steps)
    ensures Distinct(Run(c, steps).host)
    decreases |steps|
  {
    if steps != [] {
      StepKeepsDistinct(c, steps[0]);
      PortsStayDistinct(Apply(c, steps[0]), steps[1..]);
    }
  }

  // ---- a VM gets its port back ----

  predicate Touches(s: Step, id: string) {
    s.id == id && s.Prepare?
  }

  /** Only preparing a VM's own console changes what is saved for it. */
  lemma {:induction false} SavedStays(c: Consoles, steps: seq<Step>, id: string)
    requires RunOk(c, steps) && forall i :: 0 <= i < |steps| ==> !Touches(steps[i], id)
    ensures SavedPort(Run(c, steps).saved, id) == SavedPort(c.saved, id)
    decreases |steps|
  {
    if steps != [] {
      SavedStays(Apply(c, steps[0]), steps[1..], id);
    }
  }

  /**
   A VM whose console was prepared and saved gets the same port the next time, over
   whatever happened in between to other VMs or by disabling its own, as long as its
   display is off by then and the port is in range and still free.
   */
  lemma PortComesBack(c: Consoles, id: string, first: Luck, between: seq<Step>, next: Luck)
    requires StepOk(c, Prepare(id, first)) && first.ok && first.status.Some? && first.saves
    requires var port := PreparedPort(c, id, first);
             port.Some? && IsValidConsolePort(port.value) && VerifiedPort(first.status.value, port.value) == port.value
    requires var c1 := Apply(c, Prepare(id, first));
             && RunOk(c1, between) && (forall i :: 0 <= i < |between| ==> !Touches(between[i], id))
             && var c2 := Run(c1, between);
                && StepOk(c2, Prepare(id, next)) && CurrentPort(c2.host, id) == 0
                && !Occupied(c2.host, id, next.unbindable)(PreparedPort(c, id, first).value)
    ensures PreparedPort(Run(Apply(c, Prepare(id, first)), between), id, next) == PreparedPort(c, id, first)
  {
    SavedStays(Apply(c, Prepare(id, first)), between, id);
  }
}
