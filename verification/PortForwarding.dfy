/**
 Adding and deleting NAT port-forwarding rules: the guards read the rules back
 from printed text, of this VM and of every other one.
 */
module PortForwarding {
  import opened Text
  import opened ForwardingText

  /** modes holds the enabled adapters. lines is what the VM's description prints, its rules included. */
  datatype Vm = Vm(name: string, modes: map<int, string>, lines: seq<Line>)

  /** The registered VMs, in the order they are listed. */
  type World = seq<Vm>

  /**
   What the libraries decide: equal letters up to case fold to the same one, and
   which texts are IP addresses. end is what ends a printed line.
   */
  datatype Lib = Lib(fold: char -> char, isIP: string -> bool, end: string)

  predicate AddressChar(c: char) {
    IsDigit(c) || 'a' <= c <= 'f' || 'A' <= c <= 'F' || c == '.' || c == ':'
  }

  ghost predicate LibOk(lib: Lib) {
    LineEnd(lib.end) && forall s :: lib.isIP(s) ==> All(s, AddressChar)
  }

  datatype Request = Request(vm: nat, slot: int, protocol: string, name: string, hostIP: string, hostPort: int, guestIP: string, guestPort: int)

  datatype Refusal =
    | BadSlot | BadProtocol | BadName | BadHostPort | BadGuestPort | BadHostIP | BadGuestIP
    | Unreadable | NoAdapter | NotNat | NameInUse | PortInUse | PortInUseBy(name: string)

  datatype Verdict = Accept(rule: Rule) | Refuse(why: Refusal)

  /** Which reads succeed: the VM's state, its rules, the list of VMs, and which other VMs' rules. */
  datatype Reads = Reads(info: bool, own: bool, list: bool, others: set<nat>)

  // ---- validation ----

  /** Bytes of a text in UTF-8. */
  function ByteLength(s: string): nat {
    if s == "" then 0
    else (if s[0] < '\U{0080}' then 1 else if s[0] < '\U{0800}' then 2 else if s[0] < '\U{10000}' then 3 else 4) + ByteLength(s[1..])
  }

  predicate IsPlausibleForwardingName(name: string) {
    && name != "" && ByteLength(name) <= 64 && name[0] != '-' && ',' !in name
    && forall i :: 0 <= i < |name| ==> name[i] >= ' ' && name[i] != '\U{007F}'
  }

  function Validated(lib: Lib, req: Request): Verdict {
    var protocol, name := Lower(TrimSpace(req.protocol)), TrimSpace(req.name);
    var hostIP, guestIP := TrimSpace(req.hostIP), TrimSpace(req.guestIP);
    if !(1 <= req.slot <= 8) then Refuse(BadSlot)
    else if protocol != "tcp" && protocol != "udp" then Refuse(BadProtocol)
    else if !IsPlausibleForwardingName(name) then Refuse(BadName)
    else if !(1 <= req.hostPort <= 65535) then Refuse(BadHostPort)
    else if !(1 <= req.guestPort <= 65535) then Refuse(BadGuestPort)
    else if hostIP != "" && !lib.isIP(hostIP) then Refuse(BadHostIP)
    else if guestIP != "" && !lib.isIP(guestIP) then Refuse(BadGuestIP)
    else Accept(Rule(name, protocol, if hostIP == "" then "127.0.0.1" else hostIP, req.hostPort, guestIP, req.guestPort))
  }

  lemma AddressIsText(s: string)
    requires All(s, AddressChar)
    ensures FieldText(s)
  {
  }

  lemma {:induction false} LowerLower(s: string)
    ensures Lower(Lower(s)) == Lower(s)
  {
    assert forall i :: 0 <= i < |s| ==> Lower(Lower(s))[i] == Lower(s)[i];
  }

  lemma ProtocolIsText(s: string)
    requires s == "tcp" || s == "udp"
    ensures FieldText(s)
  {
  }

  /** What validation accepts can be printed and read back unchanged. */
  lemma ValidatedPrintable(lib: Lib, req: Request)
    requires LibOk(lib) && Validated(lib, req).Accept?
    ensures Printable(Validated(lib, req).rule) && 1 <= req.slot <= 8
  {
    var rule := Validated(lib, req).rule;
    TrimSpaceTrims(req.name);
    TrimSpaceTrims(req.guestIP);
    LowerLower(TrimSpace(req.protocol));
    ProtocolIsText(rule.protocol);
    assert All("127.0.0.1", AddressChar);
    AddressIsText(rule.hostIP);
    AddressIsText(rule.guestIP);
    assert forall i :: 0 <= i < |rule.name| ==> rule.name[i] >= ' ';
  }

  // ---- the guards, on the rules themselves ----

  predicate SameFold(fold: char -> char, a: string, b: string) {
    |a| == |b| && forall i :: 0 <= i < |a| ==> fold(a[i]) == fold(b[i])
  }

  predicate NamedAs(lib: Lib, l: Line, slot: int, name: string) {
    l.RuleOf? && l.slot == slot && SameFold(lib.fold, l.rule.name, name)
  }

  predicate Forwards(lib: Lib, l: Line, protocol: string, port: int) {
    l.RuleOf? && l.rule.hostPort == port && SameFold(lib.fold, l.rule.protocol, protocol)
  }

  predicate NameUsed(lib: Lib, lines: seq<Line>, slot: int, name: string) {
    exists i :: 0 <= i < |lines| && NamedAs(lib, lines[i], slot, name)
  }

  predicate PortUsed(lib: Lib, lines: seq<Line>, protocol: string, port: int) {
    exists i :: 0 <= i < |lines| && Forwards(lib, lines[i], protocol, port)
  }

  /** The name of the first other VM, from number k on, whose rules can be read and use the port; "" if there is none. */
  function UsedByOther(lib: Lib, w: World, vm: nat, protocol: string, port: int, others: set<nat>, k: nat): string
    requires k <= |w|
    decreases |w| - k
  {
    if k == |w| then ""
    else if k != vm && k in others && PortUsed(lib, w[k].lines, protocol, port) then w[k].name
    else UsedByOther(lib, w, vm, protocol, port, others, k + 1)
  }

  function Guarded(lib: Lib, w: World, req: Request, seen: Reads): Verdict {
    match Validated(lib, req)
    case Refuse(why) => Refuse(why)
    case Accept(rule) =>
      if !seen.info || req.vm >= |w| then Refuse(Unreadable)
      else
        var vm := w[req.vm];
        var other := if seen.list then UsedByOther(lib, w, req.vm, rule.protocol, req.hostPort, seen.others, 0) else "";
        if req.slot !in vm.modes then Refuse(NoAdapter)
        else if vm.modes[req.slot] != "nat" then Refuse(NotNat)
        else if seen.own && NameUsed(lib, vm.lines, req.slot, rule.name) then Refuse(NameInUse)
        else if seen.own && PortUsed(lib, vm.lines, rule.protocol, req.hostPort) then Refuse(PortInUse)
        else if other != "" then Refuse(PortInUseBy(other))
        else Accept(rule)
  }

  /** A rule printed at position at, under the given number. */
  function Inserted(lines: seq<Line>, at: nat, l: Line): seq<Line> {
    if at <= |lines| then lines[..at] + [l] + lines[at..] else lines + [l]
  }

  /** effect says whether the command took place; where the rule is then printed is up to VirtualBox. */
  datatype Luck = Luck(effect: bool, at: nat, index: nat)

  function Added(lib: Lib, w: World, req: Request, seen: Reads, luck: Luck): World {
    match Guarded(lib, w, req, seen)
    case Refuse(_) => w
    case Accept(rule) =>
      if luck.effect then
        w[req.vm := w[req.vm].(lines := Inserted(w[req.vm].lines, luck.at, RuleOf(req.slot, luck.index, rule)))]
      else w
  }

  /** The first line, from i on, of that adapter's rule of that name. */
  function RuleAt(lines: seq<Line>, slot: int, name: string, i: nat): (k: nat)
    requires i <= |lines|
    ensures i <= k <= |lines|
    ensures k < |lines| ==> lines[k].RuleOf? && lines[k].slot == slot && lines[k].rule.name == name
    decreases |lines| - i
  {
    if i == |lines| || (lines[i].RuleOf? && lines[i].slot == slot && lines[i].rule.name == name) then i
    else RuleAt(lines, slot, name, i + 1)
  }

  function Removed(lines: seq<Line>, k: nat): seq<Line> {
    if k < |lines| then lines[..k] + lines[k + 1..] else lines
  }

  function Deleted(w: World, vm: nat, slot: int, name: string, info: bool, effect: bool): World {
    if 1 <= slot <= 8 && IsPlausibleForwardingName(TrimSpace(name)) && info && effect && vm < |w| then
      w[vm := w[vm].(lines := Removed(w[vm].lines, RuleAt(w[vm].lines, slot, TrimSpace(name), 0)))]
    else w
  }

  // ---- the guards, as carried out on printed text ----

  predicate VmOk(vm: Vm) {
    vm.name != "" && LinesOk(vm.lines) && HasOther(vm.lines)
  }

  /** A description never consists of rules only. */
  predicate HasOther(lines: seq<Line>) {
    exists i :: 0 <= i < |lines| && lines[i].Other?
  }

  predicate WorldOk(w: World) {
    forall k :: 0 <= k < |w| ==> VmOk(w[k])
  }

  ghost predicate AnyPort(lib: Lib, rules: Rules, protocol: string, port: int) {
    exists slot, i :: slot in rules && 0 <= i < |rules[slot]| && TakesPort(lib, rules[slot][i], protocol, port)
  }

  predicate TakesPort(lib: Lib, r: Rule, protocol: string, port: int) {
    r.hostPort == port && SameFold(lib.fold, TrimSpace(r.protocol), protocol)
  }

  lemma SomeSlot(slots: set<int>)
    requires slots != {}
    ensures exists slot :: slot in slots
  {
    assert (forall slot :: slot !in slots) ==> slots == {};
  }

  method ForwardsPort(lib: Lib, rules: Rules, protocol: string, port: int) returns (found: bool)
    ensures found <==> AnyPort(lib, rules, protocol, port)
  {
    var slots := rules.Keys;
    while slots != {}
      invariant slots <= rules.Keys
      invariant forall s, i :: s in rules && s !in slots && 0 <= i < |rules[s]| ==> !TakesPort(lib, rules[s][i], protocol, port)
    {
      SomeSlot(slots);
      var slot :| slot in slots;
      slots := slots - {slot};
      for i := 0 to |rules[slot]|
        invariant forall k :: 0 <= k < i ==> !TakesPort(lib, rules[slot][k], protocol, port)
      {
        if TakesPort(lib, rules[slot][i], protocol, port) {
          return true;
        }
      }
    }
    return false;
  }

  method HasName(lib: Lib, rules: seq<Rule>, name: string) returns (found: bool)
    ensures found <==> exists i :: 0 <= i < |rules| && SameFold(lib.fold, rules[i].name, name)
  {
    for i := 0 to |rules|
      invariant forall k :: 0 <= k < i ==> !SameFold(lib.fold, rules[k].name, name)
    {
      if SameFold(lib.fold, rules[i].name, name) {
        return true;
      }
    }
    return false;
  }

  lemma {:induction false} RulesOfHas(lines: seq<Line>, slot: int, r: Rule)
    ensures r in RulesOf(lines, slot) <==> exists i :: 0 <= i < |lines| && lines[i].RuleOf? && lines[i].slot == slot && lines[i].rule == r
    decreases |lines|
  {
    if lines != [] {
      var n := |lines| - 1;
      RulesOfHas(lines[..n], slot, r);
      assert forall i :: 0 <= i < n ==> lines[..n][i] == lines[i];
    }
  }

  /** The name guard on the parsed text decides what the name guard on the rules does. */
  lemma NameGuard(lib: Lib, vm: Vm, slot: int, name: string)
    requires LibOk(lib) && VmOk(vm)
    ensures var rules := On(ReadRules(Output(vm.lines, lib.end)), slot);
            (exists i :: 0 <= i < |rules| && SameFold(lib.fold, rules[i].name, name)) <==> NameUsed(lib, vm.lines, slot, name)
  {
    var rules := On(ReadRules(Output(vm.lines, lib.end)), slot);
    OutputRoundTrip(vm.lines, lib.end, slot);
    forall i | 0 <= i < |rules| && SameFold(lib.fold, rules[i].name, name)
      ensures NameUsed(lib, vm.lines, slot, name)
    {
      RulesOfHas(vm.lines, slot, rules[i]);
      var k :| 0 <= k < |vm.lines| && vm.lines[k].RuleOf? && vm.lines[k].slot == slot && vm.lines[k].rule == rules[i];
      assert NamedAs(lib, vm.lines[k], slot, name);
    }
    forall k | 0 <= k < |vm.lines| && NamedAs(lib, vm.lines[k], slot, name)
      ensures exists i :: 0 <= i < |rules| && SameFold(lib.fold, rules[i].name, name)
    {
      RulesOfHas(vm.lines, slot, vm.lines[k].rule);
      var i :| 0 <= i < |rules| && rules[i] == vm.lines[k].rule;
    }
  }

  lemma TrimmedStays(s: string)
    requires Trimmed(s)
    ensures TrimSpace(s) == s
  {
    TrimSpaceIs("", s, "");
    assert "" + s + "" == s;
  }

  /** The port guard on the parsed text decides what the port guard on the rules does. */
  lemma PortGuard(lib: Lib, vm: Vm, protocol: string, port: int)
    requires LibOk(lib) && VmOk(vm)
    ensures AnyPort(lib, ReadRules(Output(vm.lines, lib.end)), protocol, port) <==> PortUsed(lib, vm.lines, protocol, port)
  {
    var rules := ReadRules(Output(vm.lines, lib.end));
    forall slot, i | slot in rules && 0 <= i < |rules[slot]| && TakesPort(lib, rules[slot][i], protocol, port)
      ensures PortUsed(lib, vm.lines, protocol, port)
    {
      var r := rules[slot][i];
      OutputRoundTrip(vm.lines, lib.end, slot);
      RulesOfHas(vm.lines, slot, r);
      var k :| 0 <= k < |vm.lines| && vm.lines[k].RuleOf? && vm.lines[k].slot == slot && vm.lines[k].rule == r;
      assert LineOk(vm.lines[k]);
      TrimmedStays(r.protocol);
      assert Forwards(lib, vm.lines[k], protocol, port);
    }
    forall k | 0 <= k < |vm.lines| && Forwards(lib, vm.lines[k], protocol, port)
      ensures AnyPort(lib, rules, protocol, port)
    {
      var l := vm.lines[k];
      assert LineOk(l);
      OutputRoundTrip(vm.lines, lib.end, l.slot);
      RulesOfHas(vm.lines, l.slot, l.rule);
      TrimmedStays(l.rule.protocol);
      assert l.rule in On(rules, l.slot);
      var i :| 0 <= i < |rules[l.slot]| && rules[l.slot][i] == l.rule;
      assert TakesPort(lib, rules[l.slot][i], protocol, port);
    }
  }

  method HostPortForwardedByOtherVM(lib: Lib, w: World, vm: nat, protocol: string, port: int, seen: Reads) returns (name: string)
    requires LibOk(lib) && WorldOk(w)
    ensures name == if seen.list then UsedByOther(lib, w, vm, protocol, port, seen.others, 0) else ""
  {
    if !seen.list {
      return "";
    }
    for k := 0 to |w|
      invariant UsedByOther(lib, w, vm, protocol, port, seen.others, 0) == UsedByOther(lib, w, vm, protocol, port, seen.others, k)
    {
      if k != vm && k in seen.others {
        var rules := ParseForwardingRules(Output(w[k].lines, lib.end));
        var found := ForwardsPort(lib, rules, protocol, port);
        PortGuard(lib, w[k], protocol, port);
        if found {
          return w[k].name;
        }
      }
    }
    return "";
  }

  class NatService {
    var vms: World
    const lib: Lib

    constructor (vms: World, lib: Lib)
      ensures this.vms == vms && this.lib == lib
    {
      this.vms, this.lib := vms, lib;
    }

    method AddPortForwarding(req: Request, seen: Reads, luck: Luck) returns (verdict: Verdict)
      requires LibOk(lib) && WorldOk(vms)
      modifies this
      ensures verdict == Guarded(lib, old(vms), req, seen)
      ensures vms == Added(lib, old(vms), req, seen, luck)
    {
      var checked := Validated(lib, req);
      if checked.Refuse? {
        return checked;
      }
      var rule := checked.rule;
      if !seen.info || req.vm >= |vms| {
        return Refuse(Unreadable);
      }
      var vm := vms[req.vm];
      assert VmOk(vm);
      if req.slot !in vm.modes {
        return Refuse(NoAdapter);
      }
      if vm.modes[req.slot] != "nat" {
        return Refuse(NotNat);
      }
      var existing: Rules := map[];
      if seen.own {
        existing := ParseForwardingRules(Output(vm.lines, lib.end));
        NameGuard(lib, vm, req.slot, rule.name);
        PortGuard(lib, vm, rule.protocol, req.hostPort);
      }
      var named := HasName(lib, On(existing, req.slot), rule.name);
      if named {
        return Refuse(NameInUse);
      }
      var taken := ForwardsPort(lib, existing, rule.protocol, req.hostPort);
      if taken {
        return Refuse(PortInUse);
      }
      var other := HostPortForwardedByOtherVM(lib, vms, req.vm, rule.protocol, req.hostPort, seen);
      if other != "" {
        return Refuse(PortInUseBy(other));
      }
      if luck.effect {
        vms := vms[req.vm := vm.(lines := Inserted(vm.lines, luck.at, RuleOf(req.slot, luck.index, rule)))];
      }
      return Accept(rule);
    }

    /** Without a valid request, the read and the command, nothing changes; with them just that rule goes. */
    method DeletePortForwarding(vm: nat, slot: int, name: string, info: bool, effect: bool)
      modifies this
      ensures vms == Deleted(old(vms), vm, slot, name, info, effect)
      ensures var valid := 1 <= slot <= 8 && IsPlausibleForwardingName(TrimSpace(name)) && info && effect && vm < |old(vms)|;
              if !valid then vms == old(vms)
              else Unique(lib, old(vms)) ==>
                     vms == old(vms)[vm := old(vms)[vm].(lines := Others(old(vms)[vm].lines, slot, TrimSpace(name)))]
    {
      if !(1 <= slot <= 8) || !IsPlausibleForwardingName(TrimSpace(name)) || !info || vm >= |vms| {
        return;
      }
      if effect {
        if Unique(lib, vms) {
          RemovedIsOthers(lib, vms[vm].lines, slot, TrimSpace(name));
        }
        vms := vms[vm := vms[vm].(lines := Removed(vms[vm].lines, RuleAt(vms[vm].lines, slot, TrimSpace(name), 0)))];
      }
    }
  }

  // ---- rules stay unique ----

  predicate SamePort(x: Line, y: Line) {
    x.RuleOf? && y.RuleOf? && x.rule.hostPort == y.rule.hostPort && x.rule.protocol == y.rule.protocol
  }

  predicate SameName(lib: Lib, x: Line, y: Line) {
    x.RuleOf? && y.RuleOf? && x.slot == y.slot && SameFold(lib.fold, x.rule.name, y.rule.name)
  }

  predicate Clash(lib: Lib, x: Line, y: Line) {
    SamePort(x, y) || SameName(lib, x, y)
  }

  /** No two rules of a VM share host port and protocol, and no two of an adapter the name up to case. */
  ghost predicate VmUnique(lib: Lib, lines: seq<Line>) {
    forall i, j :: 0 <= i < j < |lines| ==> !Clash(lib, lines[i], lines[j])
  }

  ghost predicate Apart(a: seq<Line>, b: seq<Line>) {
    forall i, j :: 0 <= i < |a| && 0 <= j < |b| ==> !SamePort(a[i], b[j])
  }

  ghost predicate Unique(lib: Lib, w: World) {
    && (forall k :: 0 <= k < |w| ==> VmUnique(lib, w[k].lines))
    && (forall a, b :: 0 <= a < b < |w| ==> Apart(w[a].lines, w[b].lines))
  }

  /** A line clashes with one of these. */
  ghost predicate ClashesIn(lib: Lib, lines: seq<Line>, l: Line) {
    exists i :: 0 <= i < |lines| && Clash(lib, lines[i], l)
  }

  ghost predicate PortIn(lines: seq<Line>, l: Line) {
    exists i :: 0 <= i < |lines| && SamePort(lines[i], l)
  }

  lemma InsertedAt(lines: seq<Line>, at: nat, l: Line)
    ensures var after, p := Inserted(lines, at, l), if at <= |lines| then at else |lines|;
            && |after| == |lines| + 1
            && forall i :: 0 <= i < |after| ==> after[i] == if i < p then lines[i] else if i == p then l else lines[i - 1]
  {
  }

  lemma InsertUnique(lib: Lib, lines: seq<Line>, at: nat, l: Line)
    requires VmUnique(lib, lines)
    ensures VmUnique(lib, Inserted(lines, at, l)) <==> !ClashesIn(lib, lines, l)
  {
    var after, p := Inserted(lines, at, l), if at <= |lines| then at else |lines|;
    InsertedAt(lines, at, l);
    forall i | 0 <= i < |lines| && Clash(lib, lines[i], l)
      ensures !VmUnique(lib, after)
    {
      assert Clash(lib, l, lines[i]);
      assert i < p ==> Clash(lib, after[i], after[p]);
      assert i >= p ==> Clash(lib, after[p], after[i + 1]);
    }
  }

  lemma InsertApart(lines: seq<Line>, at: nat, l: Line, b: seq<Line>)
    requires Apart(lines, b)
    ensures Apart(Inserted(lines, at, l), b) <==> !PortIn(b, l)
  {
    var after, p := Inserted(lines, at, l), if at <= |lines| then at else |lines|;
    InsertedAt(lines, at, l);
    forall i | 0 <= i < |b| && SamePort(b[i], l)
      ensures !Apart(after, b)
    {
      assert SamePort(after[p], b[i]);
    }
  }

  lemma ApartSymmetric(a: seq<Line>, b: seq<Line>)
    ensures Apart(a, b) <==> Apart(b, a)
  {
    assert forall x, y :: SamePort(x, y) <==> SamePort(y, x);
  }

  lemma UniqueBetween(lib: Lib, w: World, a: nat, b: nat)
    requires Unique(lib, w) && a < |w| && b < |w| && a != b
    ensures Apart(w[a].lines, w[b].lines)
  {
    ApartSymmetric(w[a].lines, w[b].lines);
  }

  /** With one VM's lines replaced, uniqueness is a matter of that VM and of it against each other one. */
  lemma ReplaceUnique(lib: Lib, w: World, vm: nat, lines: seq<Line>)
    requires Unique(lib, w) && vm < |w|
    ensures Unique(lib, w[vm := w[vm].(lines := lines)]) <==>
            VmUnique(lib, lines) && forall k :: 0 <= k < |w| && k != vm ==> Apart(lines, w[k].lines)
  {
    var w' := w[vm := w[vm].(lines := lines)];
    if Unique(lib, w') {
      assert w'[vm].lines == lines;
      forall k | 0 <= k < |w| && k != vm
        ensures Apart(lines, w[k].lines)
      {
        UniqueBetween(lib, w', vm, k);
      }
    }
    if VmUnique(lib, lines) && forall k :: 0 <= k < |w| && k != vm ==> Apart(lines, w[k].lines) {
      forall a, b | 0 <= a < b < |w'|
        ensures Apart(w'[a].lines, w'[b].lines)
      {
        ApartSymmetric(lines, w[a].lines);
      }
    }
  }

  /** A line clashes with a line of its own VM, or takes the port of another VM. */
  ghost predicate Unwelcome(lib: Lib, w: World, vm: nat, l: Line)
    requires vm < |w|
  {
    ClashesIn(lib, w[vm].lines, l) || TakenElsewhere(w, vm, l)
  }

  ghost predicate TakenElsewhere(w: World, vm: nat, l: Line) {
    exists k :: 0 <= k < |w| && k != vm && PortIn(w[k].lines, l)
  }

  function WithLine(w: World, vm: nat, at: nat, l: Line): World
    requires vm < |w|
  {
    w[vm := w[vm].(lines := Inserted(w[vm].lines, at, l))]
  }

  lemma WithLineUnique(lib: Lib, w: World, vm: nat, at: nat, l: Line)
    requires Unique(lib, w) && vm < |w|
    ensures Unique(lib, WithLine(w, vm, at, l)) <==> !Unwelcome(lib, w, vm, l)
  {
    var lines := Inserted(w[vm].lines, at, l);
    ReplaceUnique(lib, w, vm, lines);
    InsertUnique(lib, w[vm].lines, at, l);
    forall k | 0 <= k < |w| && k != vm
      ensures Apart(lines, w[k].lines) <==> !PortIn(w[k].lines, l)
    {
      UniqueBetween(lib, w, vm, k);
      InsertApart(w[vm].lines, at, l, w[k].lines);
    }
  }

  /** A conflict in rules the guards could not read. */
  ghost predicate Hidden(lib: Lib, w: World, req: Request, seen: Reads, l: Line) {
    || (!seen.own && req.vm < |w| && ClashesIn(lib, w[req.vm].lines, l))
    || exists k :: 0 <= k < |w| && k != req.vm && !(seen.list && k in seen.others) && PortIn(w[k].lines, l)
  }

  lemma SameFoldSame(fold: char -> char, a: string)
    ensures SameFold(fold, a, a)
  {
  }

  lemma {:induction false} NotUsedByOther(lib: Lib, w: World, vm: nat, protocol: string, port: int, others: set<nat>, k: nat)
    requires k <= |w| && WorldOk(w) && UsedByOther(lib, w, vm, protocol, port, others, k) == ""
    ensures forall j :: k <= j < |w| && j != vm && j in others ==> !PortUsed(lib, w[j].lines, protocol, port)
    decreases |w| - k
  {
    if k < |w| {
      assert VmOk(w[k]);
      NotUsedByOther(lib, w, vm, protocol, port, others, k + 1);
    }
  }

  lemma NotUsedNotIn(lib: Lib, lines: seq<Line>, l: Line)
    requires l.RuleOf? && !PortUsed(lib, lines, l.rule.protocol, l.rule.hostPort)
    ensures !PortIn(lines, l)
  {
    forall i | 0 <= i < |lines|
      ensures !SamePort(lines[i], l)
    {
      SameFoldSame(lib.fold, l.rule.protocol);
      assert !Forwards(lib, lines[i], l.rule.protocol, l.rule.hostPort);
    }
  }

  lemma NotUsedNoClash(lib: Lib, lines: seq<Line>, l: Line)
    requires l.RuleOf? && !PortUsed(lib, lines, l.rule.protocol, l.rule.hostPort) && !NameUsed(lib, lines, l.slot, l.rule.name)
    ensures !ClashesIn(lib, lines, l)
  {
    NotUsedNotIn(lib, lines, l);
    forall i | 0 <= i < |lines|
      ensures !Clash(lib, lines[i], l)
    {
      assert !NamedAs(lib, lines[i], l.slot, l.rule.name);
    }
  }

  /** What an accepted request is known not to clash with. */
  lemma AcceptedClashesOnlyHidden(lib: Lib, w: World, req: Request, seen: Reads, l: Line)
    requires WorldOk(w) && Guarded(lib, w, req, seen).Accept? && l.RuleOf? && l.slot == req.slot
    requires l.rule == Guarded(lib, w, req, seen).rule
    ensures seen.own ==> !ClashesIn(lib, w[req.vm].lines, l)
    ensures seen.list ==> forall k :: 0 <= k < |w| && k != req.vm && k in seen.others ==> !PortIn(w[k].lines, l)
  {
    if seen.own {
      NotUsedNoClash(lib, w[req.vm].lines, l);
    }
    if seen.list {
      NotUsedByOther(lib, w, req.vm, l.rule.protocol, req.hostPort, seen.others, 0);
      forall k | 0 <= k < |w| && k != req.vm && k in seen.others
        ensures !PortIn(w[k].lines, l)
      {
        NotUsedNotIn(lib, w[k].lines, l);
      }
    }
  }

  /**
   A rule the guards accept keeps all rules unique if and only if it does not
   clash with one of a VM whose rules could not be read.
   */
  lemma AddKeepsUniqueIff(lib: Lib, w: World, req: Request, seen: Reads, luck: Luck)
    requires LibOk(lib) && WorldOk(w) && Unique(lib, w) && Guarded(lib, w, req, seen).Accept? && luck.effect
    ensures Unique(lib, Added(lib, w, req, seen, luck)) <==>
            !Hidden(lib, w, req, seen, RuleOf(req.slot, luck.index, Guarded(lib, w, req, seen).rule))
  {
    ValidatedPrintable(lib, req);
    var l := RuleOf(req.slot, luck.index, Guarded(lib, w, req, seen).rule);
    AcceptedClashesOnlyHidden(lib, w, req, seen, l);
    WithLineUnique(lib, w, req.vm, luck.at, l);
  }

  /** Every read of rules succeeds; the read of the VM's state may fail. */
  ghost predicate ReadAll(seen: Reads, vms: nat) {
    seen.own && seen.list && forall k :: 0 <= k < vms ==> k in seen.others
  }

  // ---- what an accepted request adds ----

  /** The rule the request asks for: its fields trimmed, the protocol in lower case, and the loopback address unless it names one. */
  predicate AsAsked(req: Request, r: Rule) {
    && r.name == TrimSpace(req.name) && r.protocol == Lower(TrimSpace(req.protocol))
    && r.hostPort == req.hostPort && r.guestPort == req.guestPort && r.guestIP == TrimSpace(req.guestIP)
    && r.hostIP == if TrimSpace(req.hostIP) == "" then "127.0.0.1" else TrimSpace(req.hostIP)
  }

  /** The limits a request is held to. */
  predicate WellAsked(lib: Lib, req: Request) {
    && 1 <= req.slot <= 8 && 1 <= req.hostPort <= 65535 && 1 <= req.guestPort <= 65535
    && Lower(TrimSpace(req.protocol)) in {"tcp", "udp"} && IsPlausibleForwardingName(TrimSpace(req.name))
    && (TrimSpace(req.hostIP) == "" || lib.isIP(TrimSpace(req.hostIP)))
    && (TrimSpace(req.guestIP) == "" || lib.isIP(TrimSpace(req.guestIP)))
  }

  lemma ValidatedIff(lib: Lib, req: Request)
    ensures Validated(lib, req).Accept? <==> WellAsked(lib, req)
    ensures Validated(lib, req).Accept? ==> AsAsked(req, Validated(lib, req).rule)
  {
  }

  /**
   An accepted request was within the limits, for a VM that could be read and an
   adapter of it in NAT mode, and its command, if it takes effect, adds one line to
   that VM: the rule as asked for, on that adapter. A refused one changes nothing.
   */
  lemma AddDoes(lib: Lib, w: World, req: Request, seen: Reads, luck: Luck)
    ensures var w', v := Added(lib, w, req, seen, luck), Guarded(lib, w, req, seen);
            && (v.Accept? ==>
                  && WellAsked(lib, req) && AsAsked(req, v.rule) && seen.info && req.vm < |w|
                  && req.slot in w[req.vm].modes && w[req.vm].modes[req.slot] == "nat")
            && (v.Accept? && luck.effect ==>
                  && |w'| == |w| && (forall k :: 0 <= k < |w| && k != req.vm ==> w'[k] == w[k])
                  && w'[req.vm].name == w[req.vm].name && w'[req.vm].modes == w[req.vm].modes
                  && exists p :: 0 <= p <= |w[req.vm].lines| &&
                       w'[req.vm].lines == w[req.vm].lines[..p] + [RuleOf(req.slot, luck.index, v.rule)] + w[req.vm].lines[p..])
            && (v.Refuse? || !luck.effect ==> w' == w)
  {
    ValidatedIff(lib, req);
    var v := Guarded(lib, w, req, seen);
    if v.Accept? && luck.effect {
      var lines := w[req.vm].lines;
      var p := if luck.at <= |lines| then luck.at else |lines|;
      assert lines[..|lines|] == lines && lines[|lines|..] == [];
      assert Inserted(lines, luck.at, RuleOf(req.slot, luck.index, v.rule)) == lines[..p] + [RuleOf(req.slot, luck.index, v.rule)] + lines[p..];
    }
  }

  /** Each refusal of a valid request says what is in the way. */
  lemma RefusedBecause(lib: Lib, w: World, req: Request, seen: Reads)
    requires WellAsked(lib, req) && Guarded(lib, w, req, seen).Refuse?
    ensures var why, name, protocol := Guarded(lib, w, req, seen).why, TrimSpace(req.name), Lower(TrimSpace(req.protocol));
            && (why == Unreadable <==> !seen.info || req.vm >= |w|)
            && (why == NoAdapter <==> seen.info && req.vm < |w| && req.slot !in w[req.vm].modes)
            && (why == NotNat <==> seen.info && req.vm < |w| && req.slot in w[req.vm].modes && w[req.vm].modes[req.slot] != "nat")
            && (why == NameInUse ==> NameUsed(lib, w[req.vm].lines, req.slot, name))
            && (why == PortInUse ==> PortUsed(lib, w[req.vm].lines, protocol, req.hostPort))
            && (why.PortInUseBy? ==>
                  exists k :: 0 <= k < |w| && k != req.vm && w[k].name == why.name && PortUsed(lib, w[k].lines, protocol, req.hostPort))
            && why in {Unreadable, NoAdapter, NotNat, NameInUse, PortInUse} + (if why.PortInUseBy? then {why} else {})
  {
    ValidatedIff(lib, req);
    if Guarded(lib, w, req, seen).why.PortInUseBy? {
      UsedByOtherNames(lib, w, req.vm, Lower(TrimSpace(req.protocol)), req.hostPort, seen.others, 0);
    }
  }

  lemma {:induction false} UsedByOtherNames(lib: Lib, w: World, vm: nat, protocol: string, port: int, others: set<nat>, k: nat)
    requires k <= |w| && UsedByOther(lib, w, vm, protocol, port, others, k) != ""
    ensures exists j :: k <= j < |w| && j != vm && w[j].name == UsedByOther(lib, w, vm, protocol, port, others, k)
              && PortUsed(lib, w[j].lines, protocol, port)
    decreases |w| - k
  {
    if k < |w| && !(k != vm && k in others && PortUsed(lib, w[k].lines, protocol, port)) {
      UsedByOtherNames(lib, w, vm, protocol, port, others, k + 1);
    }
  }

  // ---- nothing harmless is refused ----

  ghost predicate ProtocolsKnown(w: World) {
    forall k, i :: 0 <= k < |w| && 0 <= i < |w[k].lines| && w[k].lines[i].RuleOf? ==> KnownProtocol(w[k].lines[i].rule.protocol)
  }

  predicate KnownProtocol(protocol: string) {
    protocol == "tcp" || protocol == "udp"
  }

  lemma {:induction false} UsedByOtherMeans(lib: Lib, w: World, vm: nat, protocol: string, port: int, others: set<nat>, k: nat)
    requires k <= |w| && UsedByOther(lib, w, vm, protocol, port, others, k) != ""
    ensures exists j :: k <= j < |w| && j != vm && PortUsed(lib, w[j].lines, protocol, port)
    decreases |w| - k
  {
    if k < |w| && !(k != vm && k in others && PortUsed(lib, w[k].lines, protocol, port)) {
      UsedByOtherMeans(lib, w, vm, protocol, port, others, k + 1);
    }
  }

  lemma UsedMeansIn(lib: Lib, lines: seq<Line>, l: Line)
    requires lib.fold('t') != lib.fold('u') && l.RuleOf? && KnownProtocol(l.rule.protocol)
    requires forall i :: 0 <= i < |lines| && lines[i].RuleOf? ==> KnownProtocol(lines[i].rule.protocol)
    requires PortUsed(lib, lines, l.rule.protocol, l.rule.hostPort)
    ensures PortIn(lines, l) && ClashesIn(lib, lines, l)
  {
    var i :| 0 <= i < |lines| && Forwards(lib, lines[i], l.rule.protocol, l.rule.hostPort);
    assert lib.fold(lines[i].rule.protocol[0]) == lib.fold(l.rule.protocol[0]);
    assert SamePort(lines[i], l);
  }

  lemma RefusedClashes(lib: Lib, w: World, req: Request, seen: Reads, l: Line)
    requires ProtocolsKnown(w) && lib.fold('t') != lib.fold('u') && seen.info
    requires Validated(lib, req).Accept? && !Guarded(lib, w, req, seen).Accept?
    requires req.vm < |w| && req.slot in w[req.vm].modes && w[req.vm].modes[req.slot] == "nat"
    requires l.RuleOf? && l.slot == req.slot && l.rule == Validated(lib, req).rule
    ensures Unwelcome(lib, w, req.vm, l)
  {
    var own := w[req.vm].lines;
    if NameUsed(lib, own, req.slot, l.rule.name) {
      var i :| 0 <= i < |own| && NamedAs(lib, own[i], req.slot, l.rule.name);
      assert Clash(lib, own[i], l);
    } else if PortUsed(lib, own, l.rule.protocol, req.hostPort) {
      UsedMeansIn(lib, own, l);
    } else {
      UsedByOtherMeans(lib, w, req.vm, l.rule.protocol, req.hostPort, seen.others, 0);
      var j :| 0 <= j < |w| && j != req.vm && PortUsed(lib, w[j].lines, l.rule.protocol, req.hostPort);
      UsedMeansIn(lib, w[j].lines, l);
    }
  }

  /**
   With every rule read, a valid request for a NAT adapter is accepted if and only
   if adding its rule keeps all rules unique.
   */
  lemma AcceptedIffUnique(lib: Lib, w: World, req: Request, seen: Reads, at: nat, index: nat)
    requires LibOk(lib) && WorldOk(w) && Unique(lib, w) && ProtocolsKnown(w) && lib.fold('t') != lib.fold('u')
    requires Validated(lib, req).Accept? && seen.info && ReadAll(seen, |w|)
    requires req.vm < |w| && req.slot in w[req.vm].modes && w[req.vm].modes[req.slot] == "nat"
    ensures Guarded(lib, w, req, seen).Accept? <==>
            Unique(lib, WithLine(w, req.vm, at, RuleOf(req.slot, index, Validated(lib, req).rule)))
  {
    ValidatedPrintable(lib, req);
    var l := RuleOf(req.slot, index, Validated(lib, req).rule);
    WithLineUnique(lib, w, req.vm, at, l);
    if Guarded(lib, w, req, seen).Accept? {
      AcceptedClashesOnlyHidden(lib, w, req, seen, l);
    } else {
      RefusedClashes(lib, w, req, seen, l);
    }
  }

  // ---- what else a call keeps ----

  lemma InsertedLinesOk(lines: seq<Line>, at: nat, l: Line)
    requires LinesOk(lines) && LineOk(l)
    ensures LinesOk(Inserted(lines, at, l))
  {
    InsertedAt(lines, at, l);
  }

  lemma InsertedHasOther(lines: seq<Line>, at: nat, l: Line)
    requires HasOther(lines)
    ensures HasOther(Inserted(lines, at, l))
  {
    var after, p := Inserted(lines, at, l), if at <= |lines| then at else |lines|;
    InsertedAt(lines, at, l);
    var i :| 0 <= i < |lines| && lines[i].Other?;
    if i < p {
      assert after[i].Other?;
    } else {
      assert after[i + 1].Other?;
    }
  }

  lemma AddKeepsOk(lib: Lib, w: World, req: Request, seen: Reads, luck: Luck)
    requires LibOk(lib) && WorldOk(w)
    ensures WorldOk(Added(lib, w, req, seen, luck))
  {
    if Guarded(lib, w, req, seen).Accept? {
      ValidatedPrintable(lib, req);
      var l := RuleOf(req.slot, luck.index, Guarded(lib, w, req, seen).rule);
      InsertedLinesOk(w[req.vm].lines, luck.at, l);
      InsertedHasOther(w[req.vm].lines, luck.at, l);
    }
  }

  lemma RemovedAt(lines: seq<Line>, k: nat)
    requires k < |lines|
    ensures |Removed(lines, k)| == |lines| - 1
    ensures forall i :: 0 <= i < |lines| - 1 ==> Removed(lines, k)[i] == if i < k then lines[i] else lines[i + 1]
  {
  }

  lemma RemovedLinesOk(lines: seq<Line>, k: nat)
    requires LinesOk(lines)
    ensures LinesOk(Removed(lines, k))
  {
    if k < |lines| {
      RemovedAt(lines, k);
    }
  }

  lemma RemovedHasOther(lines: seq<Line>, k: nat)
    requires HasOther(lines) && (k < |lines| ==> lines[k].RuleOf?)
    ensures HasOther(Removed(lines, k))
  {
    if k < |lines| {
      RemovedAt(lines, k);
      var after := Removed(lines, k);
      var i :| 0 <= i < |lines| && lines[i].Other?;
      if i < k {
        assert after[i].Other?;
      } else {
        assert after[i - 1].Other?;
      }
    }
  }

  lemma RemovedUnique(lib: Lib, lines: seq<Line>, k: nat)
    requires VmUnique(lib, lines)
    ensures VmUnique(lib, Removed(lines, k))
  {
    if k < |lines| {
      RemovedAt(lines, k);
    }
  }

  lemma RemovedApart(lines: seq<Line>, k: nat, b: seq<Line>)
    requires Apart(lines, b)
    ensures Apart(Removed(lines, k), b)
  {
    if k < |lines| {
      RemovedAt(lines, k);
    }
  }

  lemma DeleteKeeps(lib: Lib, w: World, vm: nat, slot: int, name: string, info: bool, effect: bool)
    requires WorldOk(w) && Unique(lib, w)
    ensures WorldOk(Deleted(w, vm, slot, name, info, effect)) && Unique(lib, Deleted(w, vm, slot, name, info, effect))
  {
    if vm < |w| {
      var lines := w[vm].lines;
      var k := RuleAt(lines, slot, TrimSpace(name), 0);
      assert VmOk(w[vm]);
      RemovedLinesOk(lines, k);
      RemovedHasOther(lines, k);
      RemovedUnique(lib, lines, k);
      forall j | 0 <= j < |w| && j != vm
        ensures Apart(Removed(lines, k), w[j].lines)
      {
        UniqueBetween(lib, w, vm, j);
        RemovedApart(lines, k, w[j].lines);
      }
      ReplaceUnique(lib, w, vm, Removed(lines, k));
    }
  }

  // ---- what a delete takes away ----

  predicate IsRule(l: Line, slot: int, name: string) {
    l.RuleOf? && l.slot == slot && l.rule.name == name
  }

  /** The lines that are not a rule of that adapter and name, in order. */
  function Others(lines: seq<Line>, slot: int, name: string): seq<Line> {
    if lines == [] then []
    else (if IsRule(lines[0], slot, name) then [] else [lines[0]]) + Others(lines[1..], slot, name)
  }

  lemma {:induction false} OthersHas(lines: seq<Line>, slot: int, name: string, l: Line)
    ensures l in Others(lines, slot, name) <==> l in lines && !IsRule(l, slot, name)
    decreases |lines|
  {
    if lines != [] {
      OthersHas(lines[1..], slot, name, l);
    }
  }

  lemma {:induction false} OthersOfNone(lines: seq<Line>, slot: int, name: string)
    requires forall i :: 0 <= i < |lines| ==> !IsRule(lines[i], slot, name)
    ensures Others(lines, slot, name) == lines
    decreases |lines|
  {
    if lines != [] {
      OthersOfNone(lines[1..], slot, name);
    }
  }

  lemma {:induction false} RuleAtFirst(lines: seq<Line>, slot: int, name: string, i: nat)
    requires i <= |lines|
    ensures forall j :: i <= j < RuleAt(lines, slot, name, i) ==> !IsRule(lines[j], slot, name)
    decreases |lines| - i
  {
    if i < |lines| && !IsRule(lines[i], slot, name) {
      RuleAtFirst(lines, slot, name, i + 1);
    }
  }

  lemma OneOfName(lib: Lib, lines: seq<Line>, slot: int, name: string, i: nat, j: nat)
    requires VmUnique(lib, lines) && i < |lines| && j < |lines| && IsRule(lines[i], slot, name) && IsRule(lines[j], slot, name)
    ensures i == j
  {
    SameFoldSame(lib.fold, name);
    assert Clash(lib, lines[i], lines[j]) && Clash(lib, lines[j], lines[i]);
  }

  lemma RemovedTail(lines: seq<Line>, k: nat)
    requires 0 < k < |lines|
    ensures Removed(lines, k) == [lines[0]] + Removed(lines[1..], k - 1)
  {
  }

  lemma {:induction false} RemovedOnly(lines: seq<Line>, slot: int, name: string, k: nat)
    requires k < |lines| && forall j :: 0 <= j < |lines| ==> (IsRule(lines[j], slot, name) <==> j == k)
    ensures Removed(lines, k) == Others(lines, slot, name)
    decreases |lines|
  {
    if k == 0 {
      OthersOfNone(lines[1..], slot, name);
    } else {
      RemovedTail(lines, k);
      RemovedOnly(lines[1..], slot, name, k - 1);
    }
  }

  lemma RemovedIsOthers(lib: Lib, lines: seq<Line>, slot: int, name: string)
    requires VmUnique(lib, lines)
    ensures Removed(lines, RuleAt(lines, slot, name, 0)) == Others(lines, slot, name)
  {
    var k := RuleAt(lines, slot, name, 0);
    RuleAtFirst(lines, slot, name, 0);
    if k == |lines| {
      OthersOfNone(lines, slot, name);
    } else {
      forall j | 0 <= j < |lines|
        ensures IsRule(lines[j], slot, name) <==> j == k
      {
        if IsRule(lines[j], slot, name) {
          OneOfName(lib, lines, slot, name, k, j);
        }
      }
      RemovedOnly(lines, slot, name, k);
    }
  }

  /**
   With unique rules, an effective delete leaves no rule of that name on the adapter,
   and every other line of every VM as it was, in order.
   */
  lemma DeleteRemovesExactly(lib: Lib, w: World, vm: nat, slot: int, name: string)
    requires Unique(lib, w) && vm < |w| && 1 <= slot <= 8 && IsPlausibleForwardingName(TrimSpace(name))
    ensures var w', rule := Deleted(w, vm, slot, name, true, true), TrimSpace(name);
            && |w'| == |w|
            && (forall k :: 0 <= k < |w| && k != vm ==> w'[k] == w[k])
            && w'[vm] == w[vm].(lines := Others(w[vm].lines, slot, rule))
            && (forall l :: l in w'[vm].lines <==> l in w[vm].lines && !IsRule(l, slot, rule))
  {
    var rule := TrimSpace(name);
    RemovedIsOthers(lib, w[vm].lines, slot, rule);
    forall l
      ensures l in Others(w[vm].lines, slot, rule) <==> l in w[vm].lines && !IsRule(l, slot, rule)
    {
      OthersHas(w[vm].lines, slot, rule, l);
    }
  }

  // ---- runs ----

  datatype Step =
    | Add(req: Request, seen: Reads, luck: Luck)
    | Delete(vm: nat, slot: int, name: string, info: bool, effect: bool)

  function Apply(lib: Lib, w: World, s: Step): World {
    match s
    case Add(req, seen, luck) => Added(lib, w, req, seen, luck)
    case Delete(vm, slot, name, info, effect) => Deleted(w, vm, slot, name, info, effect)
  }

  function Run(lib: Lib, w: World, steps: seq<Step>): World
    decreases |steps|
  {
    if steps == [] then w else Run(lib, Apply(lib, w, steps[0]), steps[1..])
  }

  ghost predicate AllRead(s: Step, vms: nat) {
    s.Add? ==> ReadAll(s.seen, vms)
  }

  lemma StepKeepsUnique(lib: Lib, w: World, s: Step)
    requires LibOk(lib) && WorldOk(w) && Unique(lib, w) && AllRead(s, |w|)
    ensures WorldOk(Apply(lib, w, s)) && Unique(lib, Apply(lib, w, s)) && |Apply(lib, w, s)| == |w|
  {
    match s
    case Add(req, seen, luck) =>
      AddKeepsOk(lib, w, req, seen, luck);
      if Guarded(lib, w, req, seen).Accept? && luck.effect {
        AddKeepsUniqueIff(lib, w, req, seen, luck);
      }
    case Delete(vm, slot, name, info, effect) => DeleteKeeps(lib, w, vm, slot, name, info, effect);
  }

  /**
   Over every run of calls that do not overlap and read all the rules, no two rules
   on any VMs share host port and protocol, and no two rules of an adapter have the
   same name up to case.
   */
  lemma {:induction false} RunKeepsUnique(lib: Lib, w: World, steps: seq<Step>)
    requires LibOk(lib) && WorldOk(w) && Unique(lib, w) && forall i :: 0 <= i < |steps| ==> AllRead(steps[i], |w|)
    ensures WorldOk(Run(lib, w, steps)) && Unique(lib, Run(lib, w, steps))
    decreases |steps|
  {
    if steps != [] {
      StepKeepsUnique(lib, w, steps[0]);
      RunKeepsUnique(lib, Apply(lib, w, steps[0]), steps[1..]);
    }
  }
}
