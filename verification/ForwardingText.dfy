/**
 NAT port-forwarding rules as text: the agent reads them back from the lines
 VirtualBox prints for people, such as
 NIC 3 Rule(1):  name = game, protocol = udp, host ip = 127.0.0.1, host port = 27015, guest ip = , guest port = 27015
 */
module ForwardingText {
  import opened Common
  import opened Text

  datatype Rule = Rule(name: string, protocol: string, hostIP: string, hostPort: int, guestIP: string, guestPort: int)

  const EMPTY := Rule("", "", "", 0, "", 0)

  // ---- reading one rule ----

  function IndexOf(s: string, c: char): (i: nat)
    ensures i <= |s| && (i < |s| ==> s[i] == c) && (forall k :: 0 <= k < i ==> s[k] != c)
  {
    if s == "" || s[0] == c then 0 else 1 + IndexOf(s[1..], c)
  }

  function WithPort(value: string, port: int): int {
    if Atoi(value).Some? then Atoi(value).value else port
  }

  function WithField(rule: Rule, key: string, value: string): Rule {
    match key
    case "name" => rule.(name := value)
    case "protocol" => rule.(protocol := Lower(value))
    case "host ip" => rule.(hostIP := value)
    case "host port" => rule.(hostPort := WithPort(value, rule.hostPort))
    case "guest ip" => rule.(guestIP := value)
    case "guest port" => rule.(guestPort := WithPort(value, rule.guestPort))
    case _ => rule
  }

  function ReadPart(rule: Rule, part: string): Rule {
    var eq := IndexOf(part, '=');
    if eq == |part| then rule
    else WithField(rule, Lower(TrimSpace(part[..eq])), TrimSpace(part[eq + 1..]))
  }

  function ReadParts(rule: Rule, parts: seq<string>): Rule
    decreases |parts|
  {
    if parts == [] then rule else ReadParts(ReadPart(rule, parts[0]), parts[1..])
  }

  function ReadRule(fields: string): Rule {
    ReadParts(EMPTY, Split(fields, ','))
  }

  method ParseForwardingFields(fields: string) returns (rule: Rule)
    ensures rule == ReadRule(fields)
  {
    rule := EMPTY;
    var parts := Split(fields, ',');
    for i := 0 to |parts|
      invariant ReadRule(fields) == ReadParts(rule, parts[i..])
    {
      assert parts[i..][0] == parts[i] && parts[i..][1..] == parts[i + 1..];
      var eq := IndexOf(parts[i], '=');
      if eq < |parts[i]| {
        var key, value := Lower(TrimSpace(parts[i][..eq])), TrimSpace(parts[i][eq + 1..]);
        match key {
          case "name" => rule := rule.(name := value);
          case "protocol" => rule := rule.(protocol := Lower(value));
          case "host ip" => rule := rule.(hostIP := value);
          case "host port" =>
            if Atoi(value).Some? {
              rule := rule.(hostPort := Atoi(value).value);
            }
          case "guest ip" => rule := rule.(guestIP := value);
          case "guest port" =>
            if Atoi(value).Some? {
              rule := rule.(guestPort := Atoi(value).value);
            }
          case _ =>
        }
      }
    }
  }

  // ---- reading the whole output ----

  /** White space in a pattern, which is plain ASCII. */
  predicate IsPatternSpace(c: char) {
    '\t' <= c <= '\n' || '\U{000C}' <= c <= '\r' || c == ' '
  }

  function AfterPrefix(s: string, prefix: string): Option<string> {
    if prefix <= s then Some(s[|prefix|..]) else None
  }

  /** What is left after one or more characters satisfying p, and those characters. */
  function AfterSome(s: string, p: char -> bool): Option<(string, string)> {
    var n := Leading(s, p);
    if n == 0 then None else Some((s[..n], s[n..]))
  }

  /** The adapter number and the field list of a line ^NIC\s+(\d+)\s+Rule\(\d+\):\s*(.*)$ */
  function RuleLine(line: string): Option<(string, string)> {
    match AfterPrefix(line, "NIC")
    case None => None
    case Some(a) =>
    match AfterSome(a, IsPatternSpace)
    case None => None
    case Some((_, b)) =>
    match AfterSome(b, IsDigit)
    case None => None
    case Some((slot, c)) =>
    match AfterSome(c, IsPatternSpace)
    case None => None
    case Some((_, d)) =>
    match AfterPrefix(d, "Rule(")
    case None => None
    case Some(e) =>
    match AfterSome(e, IsDigit)
    case None => None
    case Some((_, f)) =>
    match AfterPrefix(f, "):")
    case None => None
    case Some(g) => Some((slot, g[Leading(g, IsPatternSpace)..]))
  }

  type Rules = map<int, seq<Rule>>

  /** The rules recorded for an adapter. */
  function On(rules: Rules, slot: int): seq<Rule> {
    if slot in rules then rules[slot] else []
  }

  function ReadLine(rules: Rules, line: string): Rules {
    match RuleLine(TrimSpace(line))
    case None => rules
    case Some((digits, fields)) =>
      match Atoi(digits)
      case None => rules
      case Some(slot) => if slot <= 0 then rules else rules[slot := On(rules, slot) + [ReadRule(fields)]]
  }

  function ReadLines(rules: Rules, lines: seq<string>): Rules
    decreases |lines|
  {
    if lines == [] then rules else ReadLines(ReadLine(rules, lines[0]), lines[1..])
  }

  function ReadRules(output: string): Rules {
    ReadLines(map[], Split(output, '\n'))
  }

  method ParseForwardingRules(output: string) returns (rules: Rules)
    ensures rules == ReadRules(output)
  {
    rules := map[];
    var lines := Split(output, '\n');
    for i := 0 to |lines|
      invariant ReadRules(output) == ReadLines(rules, lines[i..])
    {
      assert lines[i..][0] == lines[i] && lines[i..][1..] == lines[i + 1..];
      var m := RuleLine(TrimSpace(lines[i]));
      if m.Some? {
        var slot := Atoi(m.value.0);
        if slot.Some? && slot.value > 0 {
          var rule := ParseForwardingFields(m.value.1);
          rules := rules[slot.value := On(rules, slot.value) + [rule]];
        }
      }
    }
  }

  // ---- what is printed ----

  datatype Field = Name | Protocol | HostIP | HostPort | GuestIP | GuestPort

  function Label(f: Field): string {
    match f
    case Name => "name"
    case Protocol => "protocol"
    case HostIP => "host ip"
    case HostPort => "host port"
    case GuestIP => "guest ip"
    case GuestPort => "guest port"
  }

  function FieldOf(r: Rule, f: Field): string
    requires r.hostPort >= 0 && r.guestPort >= 0
  {
    match f
    case Name => r.name
    case Protocol => r.protocol
    case HostIP => r.hostIP
    case HostPort => Decimal(r.hostPort)
    case GuestIP => r.guestIP
    case GuestPort => Decimal(r.guestPort)
  }

  const FIELDS := [Name, Protocol, HostIP, HostPort, GuestIP, GuestPort]

  function ShownField(r: Rule, f: Field): string
    requires r.hostPort >= 0 && r.guestPort >= 0
  {
    (if f.Name? then "" else " ") + Label(f) + " = " + FieldOf(r, f)
  }

  function ShownParts(r: Rule, fields: seq<Field>): seq<string>
    requires r.hostPort >= 0 && r.guestPort >= 0
  {
    seq(|fields|, i requires 0 <= i < |fields| => ShownField(r, fields[i]))
  }

  function Shown(r: Rule): string
    requires r.hostPort >= 0 && r.guestPort >= 0
  {
    Join(ShownParts(r, FIELDS), ',')
  }

  /** Text that can stand as a value in the list and comes back unchanged. */
  predicate FieldText(s: string) {
    Trimmed(s) && ',' !in s && '\n' !in s
  }

  predicate Printable(r: Rule) {
    && FieldText(r.name) && FieldText(r.protocol) && FieldText(r.hostIP) && FieldText(r.guestIP)
    && Lower(r.protocol) == r.protocol
    && 0 <= r.hostPort <= MAX_INT && 0 <= r.guestPort <= MAX_INT
  }

  /** A line of the output: a rule of an adapter, or anything else. */
  datatype Line = RuleOf(slot: nat, index: nat, rule: Rule) | Other(text: string)

  predicate LineOk(l: Line) {
    match l
    case RuleOf(slot, _, rule) => 1 <= slot <= MAX_INT && Printable(rule)
    case Other(text) => '\n' !in text && RuleLine(TrimSpace(text)).None?
  }

  predicate LinesOk(lines: seq<Line>) {
    forall i :: 0 <= i < |lines| ==> LineOk(lines[i])
  }

  function RuleText(slot: nat, index: nat, rule: Rule): string
    requires Printable(rule)
  {
    "NIC" + (" " + (Decimal(slot) + (" " + ("Rule(" + (Decimal(index) + ("):" + ("  " + Shown(rule))))))))
  }

  function LineText(l: Line): string
    requires LineOk(l)
  {
    match l
    case RuleOf(slot, index, rule) => RuleText(slot, index, rule)
    case Other(text) => text
  }

  /** end is what stands before each line break: nothing, or a carriage return. */
  function LineTexts(lines: seq<Line>, end: string): seq<string>
    requires LinesOk(lines)
  {
    seq(|lines|, i requires 0 <= i < |lines| => LineText(lines[i]) + end)
  }

  predicate LineEnd(end: string) {
    end == "" || end == "\r"
  }

  function Output(lines: seq<Line>, end: string): string
    requires lines != [] && LinesOk(lines)
  {
    Join(LineTexts(lines, end), '\n')
  }

  /** The rules of one adapter, in the order printed. */
  function RulesOf(lines: seq<Line>, slot: int): seq<Rule>
    decreases |lines|
  {
    if lines == [] then []
    else
      var last := lines[|lines| - 1];
      RulesOf(lines[..|lines| - 1], slot) + if last.RuleOf? && last.slot == slot then [last.rule] else []
  }

  // ---- what is printed is read back ----

  predicate Key(key: string) {
    key != "" && Trimmed(key) && '=' !in key && ',' !in key && '\n' !in key && Lower(key) == key
  }

  lemma LabelIsKey(f: Field)
    ensures Key(Label(f))
  {
    match f
    case Name => assert Key("name");
    case Protocol => assert Key("protocol");
    case HostIP => assert Key("host ip");
    case HostPort => assert Key("host port");
    case GuestIP => assert Key("guest ip");
    case GuestPort => assert Key("guest port");
  }

  lemma {:induction false} IndexOfFirst(before: string, c: char, after: string)
    requires c !in before
    ensures IndexOf(before + [c] + after, c) == |before|
  {
    var s, i := before + [c] + after, IndexOf(before + [c] + after, c);
    assert s[|before|] == c;
    assert forall k :: 0 <= k < |before| ==> s[k] == before[k];
  }

  lemma PartRead(r: Rule, lead: string, key: string, value: string)
    requires (lead == "" || lead == " ") && Key(key) && Trimmed(value)
    ensures ReadPart(r, lead + key + " = " + value) == WithField(r, key, value)
  {
    var part, before, after := lead + key + " = " + value, lead + key + " ", " " + value + "";
    assert part == before + ['='] + after;
    IndexOfFirst(before, '=', after);
    assert part[..|before|] == before && part[|before| + 1..] == after;
    TrimSpaceIs(lead, key, " ");
    TrimSpaceIs(" ", value, "");
  }

  lemma DigitsAreText(s: string)
    requires AllDigits(s)
    ensures FieldText(s)
  {
  }

  lemma NumberText(n: nat)
    requires n <= MAX_INT
    ensures FieldText(Decimal(n)) && Atoi(Decimal(n)) == Some(n)
  {
    DecimalValue(n);
    DecimalAtoi(n);
    DigitsAreText(Decimal(n));
  }

  /** One field set to its value in another rule. */
  function Copied(r: Rule, f: Field, from: Rule): Rule {
    match f
    case Name => r.(name := from.name)
    case Protocol => r.(protocol := from.protocol)
    case HostIP => r.(hostIP := from.hostIP)
    case HostPort => r.(hostPort := from.hostPort)
    case GuestIP => r.(guestIP := from.guestIP)
    case GuestPort => r.(guestPort := from.guestPort)
  }

  function CopiedAll(r: Rule, fields: seq<Field>, from: Rule): Rule
    decreases |fields|
  {
    if fields == [] then r else CopiedAll(Copied(r, fields[0], from), fields[1..], from)
  }

  lemma FieldsPrintable(r: Rule, f: Field)
    requires Printable(r)
    ensures FieldText(FieldOf(r, f))
  {
    NumberText(r.hostPort);
    NumberText(r.guestPort);
  }

  lemma WithLabel(r: Rule, f: Field, value: string)
    ensures WithField(r, Label(f), value) ==
            match f
            case Name => r.(name := value)
            case Protocol => r.(protocol := Lower(value))
            case HostIP => r.(hostIP := value)
            case HostPort => r.(hostPort := WithPort(value, r.hostPort))
            case GuestIP => r.(guestIP := value)
            case GuestPort => r.(guestPort := WithPort(value, r.guestPort))
  {
  }

  lemma FieldRead(r: Rule, f: Field, from: Rule)
    requires Printable(from)
    ensures ReadPart(r, ShownField(from, f)) == Copied(r, f, from)
  {
    LabelIsKey(f);
    FieldsPrintable(from, f);
    PartRead(r, if f.Name? then "" else " ", Label(f), FieldOf(from, f));
    WithLabel(r, f, FieldOf(from, f));
    NumberText(from.hostPort);
    NumberText(from.guestPort);
  }

  lemma {:induction false} PartsRead(r: Rule, fields: seq<Field>, from: Rule)
    requires Printable(from)
    ensures ReadParts(r, ShownParts(from, fields)) == CopiedAll(r, fields, from)
    decreases |fields|
  {
    if fields != [] {
      FieldRead(r, fields[0], from);
      assert ShownParts(from, fields)[1..] == ShownParts(from, fields[1..]);
      PartsRead(Copied(r, fields[0], from), fields[1..], from);
    }
  }

  lemma AllCopied(from: Rule)
    ensures CopiedAll(EMPTY, FIELDS, from) == from
  {
    assert FIELDS[1..] == [Protocol, HostIP, HostPort, GuestIP, GuestPort];
    assert FIELDS[1..][1..] == [HostIP, HostPort, GuestIP, GuestPort];
    assert FIELDS[1..][1..][1..] == [HostPort, GuestIP, GuestPort];
    assert FIELDS[1..][1..][1..][1..] == [GuestIP, GuestPort];
    assert FIELDS[1..][1..][1..][1..][1..] == [GuestPort];
    assert FIELDS[1..][1..][1..][1..][1..][1..] == [];
  }

  lemma ShownFieldClean(r: Rule, f: Field)
    requires Printable(r)
    ensures ',' !in ShownField(r, f) && '\n' !in ShownField(r, f)
  {
    LabelIsKey(f);
    FieldsPrintable(r, f);
  }

  /** What is printed, in full. */
  lemma ShownIs(r: Rule)
    requires r.hostPort >= 0 && r.guestPort >= 0
    ensures Shown(r) ==
            ("name = " + r.name) + ([','] + ((" protocol = " + r.protocol) + ([','] + ((" host ip = " + r.hostIP)
            + ([','] + ((" host port = " + Decimal(r.hostPort)) + ([','] + ((" guest ip = " + r.guestIP)
            + ([','] + (" guest port = " + Decimal(r.guestPort)))))))))))
  {
    var p := ShownParts(r, FIELDS);
    FieldShown(r, Name, "name = ");
    FieldShown(r, Protocol, " protocol = ");
    FieldShown(r, HostIP, " host ip = ");
    FieldShown(r, HostPort, " host port = ");
    FieldShown(r, GuestIP, " guest ip = ");
    FieldShown(r, GuestPort, " guest port = ");
    JoinSix(p, ',');
  }

  lemma FieldShown(r: Rule, f: Field, lead: string)
    requires r.hostPort >= 0 && r.guestPort >= 0 && lead == (if f.Name? then "" else " ") + Label(f) + " = "
    ensures ShownField(r, f) == lead + FieldOf(r, f)
  {
  }

  lemma JoinSix(p: seq<string>, sep: char)
    requires |p| == 6
    ensures Join(p, sep) ==
            p[0] + ([sep] + (p[1] + ([sep] + (p[2] + ([sep] + (p[3] + ([sep] + (p[4] + ([sep] + p[5])))))))))
  {
    var p1, p2, p3, p4, p5 := p[1..], p[2..], p[3..], p[4..], p[5..];
    JoinFirst(p, sep);
    JoinFirst(p1, sep);
    assert p1[1..] == p2;
    JoinFirst(p2, sep);
    assert p2[1..] == p3;
    JoinFirst(p3, sep);
    assert p3[1..] == p4;
    JoinFirst(p4, sep);
    assert p4[1..] == p5;
  }

  lemma JoinFirst(p: seq<string>, sep: char)
    requires |p| > 1
    ensures Join(p, sep) == p[0] + ([sep] + Join(p[1..], sep))
  {
  }

  /** A printable rule survives being printed and read back. */
  lemma RuleRoundTrip(r: Rule)
    requires Printable(r)
    ensures ReadRule(Shown(r)) == r
  {
    forall i | 0 <= i < |FIELDS|
      ensures ',' !in ShownParts(r, FIELDS)[i]
    {
      ShownFieldClean(r, FIELDS[i]);
    }
    SplitJoin(ShownParts(r, FIELDS), ',');
    PartsRead(EMPTY, FIELDS, r);
    AllCopied(r);
  }

  /** The field list is one line, it starts with a letter and ends in a digit. */
  predicate Framed(s: string) {
    s != "" && s[0] == 'n' && IsDigit(s[|s| - 1]) && '\n' !in s
  }

  lemma ShownEnds(r: Rule)
    requires r.hostPort >= 0 && r.guestPort >= 0
    ensures var first, last := ShownField(r, Name), ShownField(r, GuestPort);
            first != "" && first[0] == 'n' && last != "" && IsDigit(last[|last| - 1])
  {
    LastIsDigit(" " + Label(GuestPort) + " = ", r.guestPort);
    assert Label(Name)[0] == 'n';
  }

  lemma ShownFramed(r: Rule)
    requires Printable(r)
    ensures Framed(Shown(r))
  {
    var p := ShownParts(r, FIELDS);
    forall i | 0 <= i < |p|
      ensures '\n' !in p[i]
    {
      ShownFieldClean(r, FIELDS[i]);
    }
    JoinHas(p, ',', '\n');
    ShownEnds(r);
    assert p[0] == ShownField(r, Name) && p[|p| - 1] == ShownField(r, GuestPort);
    JoinEnds(p, ',');
  }

  lemma LastIsDigit(before: string, n: nat)
    ensures IsDigit((before + Decimal(n))[|before + Decimal(n)| - 1])
  {
    DecimalValue(n);
    assert IsDigit(Decimal(n)[|Decimal(n)| - 1]);
  }

  lemma {:induction false} JoinHas(parts: seq<string>, sep: char, c: char)
    requires parts != [] && c != sep && forall i :: 0 <= i < |parts| ==> c !in parts[i]
    ensures c !in Join(parts, sep)
    decreases |parts|
  {
    if |parts| > 1 {
      JoinHas(parts[1..], sep, c);
    }
  }

  lemma {:induction false} JoinEnds(parts: seq<string>, sep: char)
    requires parts != [] && parts[|parts| - 1] != ""
    ensures parts[0] <= Join(parts, sep)
    ensures Join(parts, sep) != "" && Join(parts, sep)[|Join(parts, sep)| - 1] == parts[|parts| - 1][|parts[|parts| - 1]| - 1]
    decreases |parts|
  {
    if |parts| > 1 {
      JoinEnds(parts[1..], sep);
    }
  }

  lemma AfterSomeIs(run: string, rest: string, p: char -> bool)
    requires run != "" && All(run, p) && StartsOutside(rest, p)
    ensures AfterSome(run + rest, p) == Some((run, rest))
  {
    LeadingIs(run, rest, p);
  }

  lemma AfterPrefixIs(prefix: string, rest: string)
    ensures AfterPrefix(prefix + rest, prefix) == Some(rest)
  {
  }

  lemma LineMatched(slot: string, index: string, fields: string)
    requires slot != "" && AllDigits(slot) && index != "" && AllDigits(index) && Framed(fields)
    ensures RuleLine("NIC" + (" " + (slot + (" " + ("Rule(" + (index + ("):" + ("  " + fields)))))))) == Some((slot, fields))
  {
    var g := "  " + fields;
    var f := "):" + g;
    var e := index + f;
    var d := "Rule(" + e;
    var c := " " + d;
    var b := slot + c;
    AfterPrefixIs("NIC", " " + b);
    AfterSomeIs(" ", b, IsPatternSpace);
    AfterSomeIs(slot, c, IsDigit);
    AfterSomeIs(" ", d, IsPatternSpace);
    AfterPrefixIs("Rule(", e);
    AfterSomeIs(index, f, IsDigit);
    AfterPrefixIs("):", g);
    LeadingIs("  ", fields, IsPatternSpace);
  }

  /** A rule's line is matched, giving back its adapter and its field list. */
  lemma RuleTextMatched(slot: nat, index: nat, rule: Rule)
    requires Printable(rule)
    ensures RuleLine(RuleText(slot, index, rule)) == Some((Decimal(slot), Shown(rule)))
  {
    DecimalValue(slot);
    DecimalValue(index);
    ShownFramed(rule);
    LineMatched(Decimal(slot), Decimal(index), Shown(rule));
  }

  lemma RuleTextTrims(slot: nat, index: nat, rule: Rule, end: string)
    requires Printable(rule) && LineEnd(end)
    ensures TrimSpace(RuleText(slot, index, rule) + end) == RuleText(slot, index, rule)
    ensures '\n' !in RuleText(slot, index, rule) + end
  {
    ShownFramed(rule);
    DecimalValue(slot);
    DecimalValue(index);
    LineTrims(Decimal(slot), Decimal(index), Shown(rule), end);
  }

  lemma LineTrims(slot: string, index: string, fields: string, end: string)
    requires AllDigits(slot) && AllDigits(index) && Framed(fields) && LineEnd(end)
    ensures var text := "NIC" + (" " + (slot + (" " + ("Rule(" + (index + ("):" + ("  " + fields)))))));
            TrimSpace(text + end) == text && '\n' !in text + end
  {
    var before := "NIC" + (" " + (slot + (" " + ("Rule(" + (index + ("):" + "  "))))));
    var text := before + fields;
    assert "NIC" + (" " + (slot + (" " + ("Rule(" + (index + ("):" + ("  " + fields))))))) == text;
    assert '\n' !in slot && '\n' !in index && '\n' !in before;
    assert text[0] == 'N' && text[|text| - 1] == fields[|fields| - 1];
    TrimSpaceIs("", text, end);
    assert "" + text + end == text + end;
  }

  /** Trimming a line does not depend on its carriage return. */
  lemma EndTrims(text: string, end: string)
    requires LineEnd(end)
    ensures TrimSpace(text + end) == TrimSpace(text)
  {
    var before := Leading(text, IsSpace);
    AfterLeading(text, IsSpace);
    var rest := text[before..];
    LeadingAll(text, IsSpace);
    if end == "" {
      assert text + end == text;
    } else if rest == "" {
      assert text + end == (text + end) + "";
      LeadingIs(text + end, "", IsSpace);
      assert DropSpaceRight("") == "";
    } else {
      assert text + end == text[..before] + (rest + end);
      LeadingIs(text[..before], rest + end, IsSpace);
      assert (text[..before] + (rest + end))[before..] == rest + end;
      assert (rest + end)[..|rest + end| - 1] == rest;
    }
  }

  lemma {:induction false} LeadingAll(s: string, p: char -> bool)
    ensures All(s[..Leading(s, p)], p)
    decreases |s|
  {
    if s != "" && p(s[0]) {
      LeadingAll(s[1..], p);
      assert s[..Leading(s, p)] == [s[0]] + s[1..][..Leading(s[1..], p)];
    }
  }

  /** Reading a rule's line adds it to its adapter; reading any other line changes nothing. */
  lemma MatchedRead(rules: Rules, line: string, text: string, digits: string, fields: string, slot: int)
    requires TrimSpace(line) == text && RuleLine(text) == Some((digits, fields)) && Atoi(digits) == Some(slot) && slot > 0
    ensures ReadLine(rules, line) == rules[slot := On(rules, slot) + [ReadRule(fields)]]
  {
  }

  lemma RuleRead(rules: Rules, slot: nat, index: nat, rule: Rule, end: string)
    requires 1 <= slot <= MAX_INT && Printable(rule) && LineEnd(end)
    ensures ReadLine(rules, RuleText(slot, index, rule) + end) == rules[slot := On(rules, slot) + [rule]]
  {
    RuleTextTrims(slot, index, rule, end);
    RuleTextMatched(slot, index, rule);
    DecimalAtoi(slot);
    RuleRoundTrip(rule);
    var text := RuleText(slot, index, rule);
    MatchedRead(rules, text + end, text, Decimal(slot), Shown(rule), slot);
  }

  lemma LineRead(rules: Rules, l: Line, end: string)
    requires LineOk(l) && LineEnd(end)
    ensures ReadLine(rules, LineText(l) + end) ==
            match l
            case Other(_) => rules
            case RuleOf(slot, _, rule) => rules[slot := On(rules, slot) + [rule]]
  {
    match l
    case Other(text) => EndTrims(text, end);
    case RuleOf(slot, index, rule) => RuleRead(rules, slot, index, rule, end);
  }

  lemma {:induction false} ReadLinesLast(rules: Rules, lines: seq<string>, last: string)
    ensures ReadLines(rules, lines + [last]) == ReadLine(ReadLines(rules, lines), last)
    decreases |lines|
  {
    if lines == [] {
      assert lines + [last] == [last] && [last][1..] == [];
    } else {
      assert (lines + [last])[1..] == lines[1..] + [last];
      ReadLinesLast(ReadLine(rules, lines[0]), lines[1..], last);
    }
  }

  lemma LineAdds(rules: Rules, l: Line, end: string, slot: int)
    requires LineOk(l) && LineEnd(end)
    ensures On(ReadLine(rules, LineText(l) + end), slot) == On(rules, slot) + if l.RuleOf? && l.slot == slot then [l.rule] else []
  {
    LineRead(rules, l, end);
  }

  lemma TextsLast(lines: seq<Line>, end: string)
    requires lines != [] && LinesOk(lines)
    ensures LineTexts(lines, end) == LineTexts(lines[..|lines| - 1], end) + [LineText(lines[|lines| - 1]) + end]
  {
    var n := |lines| - 1;
    var all, before := LineTexts(lines, end), LineTexts(lines[..n], end);
    forall i | 0 <= i < n
      ensures all[i] == before[i]
    {
      assert lines[..n][i] == lines[i];
    }
  }

  lemma {:induction false} LinesRead(lines: seq<Line>, end: string, slot: int)
    requires LinesOk(lines) && LineEnd(end)
    ensures On(ReadLines(map[], LineTexts(lines, end)), slot) == RulesOf(lines, slot)
    decreases |lines|
  {
    if lines != [] {
      var n := |lines| - 1;
      var before := LineTexts(lines[..n], end);
      LinesRead(lines[..n], end, slot);
      TextsLast(lines, end);
      ReadLinesLast(map[], before, LineText(lines[n]) + end);
      LineAdds(ReadLines(map[], before), lines[n], end, slot);
    }
  }

  lemma LineClean(l: Line, end: string)
    requires LineOk(l) && LineEnd(end)
    ensures '\n' !in LineText(l) + end
  {
    if l.RuleOf? {
      RuleTextTrims(l.slot, l.index, l.rule, end);
    }
  }

  /**
   Whatever else the output holds, reading it gives every adapter exactly its rules,
   in the order printed.
   */
  lemma OutputRoundTrip(lines: seq<Line>, end: string, slot: int)
    requires lines != [] && LinesOk(lines) && LineEnd(end)
    ensures On(ReadRules(Output(lines, end)), slot) == RulesOf(lines, slot)
  {
    var texts := LineTexts(lines, end);
    forall i | 0 <= i < |texts|
      ensures '\n' !in texts[i]
    {
      LineClean(lines[i], end);
    }
    SplitJoin(texts, '\n');
    LinesRead(lines, end, slot);
  }
}
