/**
 The bounded operation log. Every entry is inserted and the table is then trimmed
 to its 1000 newest rows; a trim may fail, and the clock may go backwards.

 Timestamps are the whole seconds of the RFC 3339 text the table stores, whose
 text order in UTC is their numeric order. Identifiers are auto-incremented and
 never reused.
 */
module OperationLog {
  const KEPT := 1000

  const MAX_MESSAGE := 500

  /** A message is a sequence of bytes, each written as a character. */
  datatype Entry = Entry(vmId: string, action: string, success: bool, message: string)

  /** redact replaces paths and long tokens; what is left is cut, and marked as cut. */
  function Sanitized(e: Entry, redact: string -> string): (s: Entry)
    ensures |s.message| <= MAX_MESSAGE + 3
    ensures |redact(e.message)| <= MAX_MESSAGE ==> s.message == redact(e.message)
  {
    var m := redact(e.message);
    e.(message := if |m| > MAX_MESSAGE then m[..MAX_MESSAGE] + "..." else m)
  }

  datatype Row = Row(id: nat, recordedAt: int, entry: Entry)

  type Table = set<Row>

  // ---- ORDER BY recorded_at DESC, id DESC ----

  /** a comes before b in a listing. */
  predicate Before(a: Row, b: Row) {
    a.recordedAt > b.recordedAt || (a.recordedAt == b.recordedAt && a.id > b.id)
  }

  ghost predicate Sorted(s: seq<Row>) {
    forall i, j :: 0 <= i < j < |s| ==> Before(s[i], s[j])
  }

  /** No two rows share an identifier. */
  ghost predicate Keyed(t: Table) {
    forall a, b :: a in t && b in t && a.id == b.id ==> a == b
  }

  /** Places a row in an ordered listing. */
  function Place(s: seq<Row>, r: Row): seq<Row> {
    if s == [] || Before(r, s[0]) then [r] + s else [s[0]] + Place(s[1..], r)
  }

  ghost predicate Lists(s: seq<Row>, t: Table) {
    Sorted(s) && forall r :: r in s <==> r in t
  }

  lemma {:induction false} PlaceLists(s: seq<Row>, t: Table, r: Row)
    requires Lists(s, t) && forall q :: q in t ==> q.id != r.id
    ensures Lists(Place(s, r), t + {r})
    decreases |s|
  {
    if s == [] || Before(r, s[0]) {
      assert Sorted([r] + s);
    } else {
      var rest := s[1..];
      assert s == [s[0]] + rest;
      assert forall q :: q in rest ==> q in s;
      PlaceLists(rest, t - {s[0]}, r);
      assert forall q :: q in Place(rest, r) ==> Before(s[0], q);
    }
  }

  lemma EmptyLists(s: seq<Row>, t: Table)
    requires Lists(s, t)
    ensures s == [] <==> t == {}
  {
    if s != [] {
      assert s[0] in t;
    }
  }

  lemma {:induction false} ListsUnique(a: seq<Row>, b: seq<Row>, t: Table)
    requires Lists(a, t) && Lists(b, t)
    ensures a == b
    decreases |a|
  {
    EmptyLists(a, t);
    EmptyLists(b, t);
    if t != {} {
      assert a[0] in b;
      assert b[0] in a;
      assert a[0] == b[0];
      assert a == [a[0]] + a[1..] && b == [b[0]] + b[1..];
      ListsUnique(a[1..], b[1..], t - {a[0]});
    }
  }

  ghost predicate Listable(t: Table) {
    exists s :: Lists(s, t)
  }

  lemma {:induction false} KeyedListable(t: Table)
    requires Keyed(t)
    ensures Listable(t)
    decreases t
  {
    if t == {} {
      assert Lists([], t);
    } else {
      var r :| r in t;
      KeyedListable(t - {r});
      var s :| Lists(s, t - {r});
      PlaceLists(s, t - {r}, r);
      assert t - {r} + {r} == t;
    }
  }

  /** The rows of a table in listing order. */
  ghost function Listing(t: Table): (s: seq<Row>)
    requires Keyed(t)
    ensures Lists(s, t)
  {
    KeyedListable(t);
    var s :| Lists(s, t);
    s
  }

  function Take(s: seq<Row>, n: nat): seq<Row> {
    if |s| <= n then s else s[..n]
  }

  /** The listed rows survive a trim, the others are deleted. */
  ghost function Trimmed(t: Table): Table
    requires Keyed(t)
  {
    set r | r in Take(Listing(t), KEPT)
  }

  // ---- what trimming does to a listing ----

  lemma {:induction false} TakePlace(s: seq<Row>, r: Row, n: nat)
    ensures Take(Place(s, r), n) == Take(Place(Take(s, n), r), n)
    decreases |s|
  {
    if n > 0 && s != [] && !Before(r, s[0]) {
      TakePlace(s[1..], r, n - 1);
      assert Take(s, n)[1..] == Take(s[1..], n - 1);
      assert Take(Place(s, r), n) == [s[0]] + Take(Place(s[1..], r), n - 1);
    }
  }

  lemma InsertListing(t: Table, r: Row)
    requires Keyed(t) && forall q :: q in t ==> q.id != r.id
    ensures Keyed(t + {r}) && Listing(t + {r}) == Place(Listing(t), r)
  {
    PlaceLists(Listing(t), t, r);
    ListsUnique(Listing(t + {r}), Place(Listing(t), r), t + {r});
  }

  lemma TrimListing(t: Table)
    requires Keyed(t)
    ensures Trimmed(t) <= t && Keyed(Trimmed(t)) && Listing(Trimmed(t)) == Take(Listing(t), KEPT)
  {
    var top := Take(Listing(t), KEPT);
    assert forall i :: 0 <= i < |top| ==> top[i] == Listing(t)[i];
    assert forall r :: r in top ==> r in Listing(t);
    ListsUnique(Listing(Trimmed(t)), top, Trimmed(t));
  }

  lemma {:induction false} SetOfSize(s: seq<Row>)
    ensures |set r | r in s| <= |s|
  {
    if s != [] {
      SetOfSize(s[1..]);
      assert (set r | r in s) == {s[0]} + (set r | r in s[1..]);
    }
  }

  /** The newest 1000 rows of the two tables are the same, in the same order. */
  ghost predicate SameNewest(kept: Table, all: Table)
    requires Keyed(kept) && Keyed(all)
  {
    Take(Listing(kept), KEPT) == Take(Listing(all), KEPT)
  }

  lemma InsertKeepsNewest(kept: Table, all: Table, r: Row)
    requires Keyed(all) && kept <= all && SameNewest(kept, all) && forall q :: q in all ==> q.id != r.id
    ensures Keyed(all + {r}) && SameNewest(kept + {r}, all + {r})
  {
    InsertListing(kept, r);
    InsertListing(all, r);
    TakePlace(Listing(kept), r, KEPT);
    TakePlace(Listing(all), r, KEPT);
  }

  lemma TrimKeepsNewest(kept: Table, all: Table)
    requires Keyed(all) && kept <= all && SameNewest(kept, all)
    ensures Trimmed(kept) <= kept && SameNewest(Trimmed(kept), all) && |Trimmed(kept)| <= KEPT
  {
    TrimListing(kept);
    SetOfSize(Take(Listing(kept), KEPT));
  }

  // ---- runs ----

  /** One LogOperation call: the clock it reads and which of its two statements succeed. */
  datatype Call = Call(entry: Entry, now: int, inserts: bool, trims: bool)

  datatype Log = Log(kept: Table, all: Table, lastId: nat)

  ghost predicate LogOk(log: Log) {
    && Keyed(log.all) && log.kept <= log.all && SameNewest(log.kept, log.all)
    && forall r :: r in log.all ==> r.id <= log.lastId
  }

  ghost function Insert(log: Log, entry: Entry, now: int): Log {
    var r := Row(log.lastId + 1, now, entry);
    Log(log.kept + {r}, log.all + {r}, log.lastId + 1)
  }

  ghost function Step(log: Log, c: Call): (log': Log)
    requires LogOk(log)
    ensures LogOk(log')
  {
    if c.entry.action == "" || !c.inserts then log
    else
      InsertKeepsNewest(log.kept, log.all, Row(log.lastId + 1, c.now, c.entry));
      var log' := Insert(log, c.entry, c.now);
      TrimKeepsNewest(log'.kept, log'.all);
      if c.trims then log'.(kept := Trimmed(log'.kept)) else log'
  }

  ghost function Run(log: Log, calls: seq<Call>): (log': Log)
    requires LogOk(log)
    ensures LogOk(log')
    decreases |calls|
  {
    if calls == [] then log else Run(Step(log, calls[0]), calls[1..])
  }

  // ---- what the untrimmed log holds ----

  /** The calls that put a row in the table, in order. */
  function Recorded(calls: seq<Call>): seq<Call>
    decreases |calls|
  {
    if calls == [] then []
    else
      var last := calls[|calls| - 1];
      Recorded(calls[..|calls| - 1]) + if last.entry.action != "" && last.inserts then [last] else []
  }

  /** One row per recorded call: the first gets identifier 1, the next 2, and so on. */
  ghost function RowsOf(recorded: seq<Call>): Table {
    set i | 0 <= i < |recorded| :: Row(i + 1, recorded[i].now, recorded[i].entry)
  }

  lemma {:induction false} RunLast(log: Log, calls: seq<Call>, c: Call)
    requires LogOk(log)
    ensures Run(log, calls + [c]) == Step(Run(log, calls), c)
    decreases |calls|
  {
    if calls == [] {
      assert calls + [c] == [c] && [c][1..] == [];
    } else {
      assert (calls + [c])[1..] == calls[1..] + [c];
      RunLast(Step(log, calls[0]), calls[1..], c);
    }
  }

  lemma RowsOfLast(recorded: seq<Call>, c: Call)
    ensures RowsOf(recorded + [c]) == RowsOf(recorded) + {Row(|recorded| + 1, c.now, c.entry)}
  {
    var more := recorded + [c];
    forall r | r in RowsOf(recorded)
      ensures r in RowsOf(more)
    {
      var i :| 0 <= i < |recorded| && r == Row(i + 1, recorded[i].now, recorded[i].entry);
      assert more[i] == recorded[i];
    }
    assert more[|recorded|] == c;
  }

  /**
   After any history the untrimmed log holds exactly one row for each call with an
   action whose insert worked, with that call's time and entry, numbered in order.
   */
  lemma {:induction false} LogHoldsCalls(calls: seq<Call>)
    ensures LogOk(Log({}, {}, 0))
    ensures Run(Log({}, {}, 0), calls).all == RowsOf(Recorded(calls))
    ensures Run(Log({}, {}, 0), calls).lastId == |Recorded(calls)|
    decreases |calls|
  {
    EmptyLogOk();
    if calls == [] {
      assert RowsOf([]) == {};
    } else {
      var n := |calls| - 1;
      LogHoldsCalls(calls[..n]);
      assert calls == calls[..n] + [calls[n]];
      RunLast(Log({}, {}, 0), calls[..n], calls[n]);
      var before := Recorded(calls[..n]);
      RowsOfLast(before, calls[n]);
      assert before + [] == before;
    }
  }

  lemma EmptyLogOk()
    ensures LogOk(Log({}, {}, 0))
  {
    KeyedListable({});
  }

  lemma TakeTake(s: seq<Row>, n: nat)
    requires n <= KEPT
    ensures Take(Take(s, KEPT), n) == Take(s, n)
  {
  }

  /**
   After any history of calls, with any clock and any of the trims failing, a
   reader that asks for at most 1000 rows cannot tell the trimmed table from the
   untrimmed one.
   */
  lemma TrimIsInvisible(calls: seq<Call>, n: nat)
    requires n <= KEPT
    ensures LogOk(Log({}, {}, 0))
    ensures var log := Run(Log({}, {}, 0), calls);
            Take(Listing(log.kept), n) == Take(Listing(log.all), n)
  {
    EmptyLogOk();
    var log := Run(Log({}, {}, 0), calls);
    TakeTake(Listing(log.kept), n);
    TakeTake(Listing(log.all), n);
  }

  lemma TrimBounds(log: Log, c: Call)
    requires LogOk(log) && c.entry.action != "" && c.inserts && c.trims
    ensures |Step(log, c).kept| <= KEPT
  {
    InsertKeepsNewest(log.kept, log.all, Row(log.lastId + 1, c.now, c.entry));
    TrimKeepsNewest(Insert(log, c.entry, c.now).kept, Insert(log, c.entry, c.now).all);
  }

  // ---- the store ----

  /** What the queries compute: the rows of t in listing order. */
  method OrderBy(t: Table) returns (s: seq<Row>)
    requires Keyed(t)
    ensures s == Listing(t)
  {
    var todo := t;
    s := [];
    while todo != {}
      invariant todo <= t && Lists(s, t - todo)
      decreases todo
    {
      var r :| r in todo;
      PlaceLists(s, t - todo, r);
      assert t - (todo - {r}) == t - todo + {r};
      s := Place(s, r);
      todo := todo - {r};
    }
    assert t - todo == t;
    ListsUnique(s, Listing(t), t);
  }

  /** r is a new row for the entry, at that time, with its message redacted and, past 500 bytes, cut and marked. */
  ghost predicate NewRow(r: Row, before: Table, e: Entry, now: int, redact: string -> string) {
    && (forall q :: q in before ==> q.id < r.id)
    && r.recordedAt == now && r.entry.vmId == e.vmId && r.entry.action == e.action && r.entry.success == e.success
    && r.entry.message == if |redact(e.message)| <= 500 then redact(e.message) else redact(e.message)[..500] + "..."
  }

  /** Newest first: later times before earlier ones, and of rows of one time the later inserted first. */
  ghost predicate NewestFirst(s: seq<Row>) {
    forall i, j :: 0 <= i < j < |s| ==>
      s[i].recordedAt > s[j].recordedAt || (s[i].recordedAt == s[j].recordedAt && s[i].id > s[j].id)
  }

  /** The listed rows are rows of t, none of them twice, as many as asked for or all there are, and none left out is newer. */
  ghost predicate NewestOf(s: seq<Row>, t: Table, n: nat) {
    && NewestFirst(s)
    && (forall r :: r in s ==> r in t)
    && |s| == (if |t| < n then |t| else n)
    && forall r, i :: r in t && r !in s && 0 <= i < |s| ==>
         s[i].recordedAt > r.recordedAt || (s[i].recordedAt == r.recordedAt && s[i].id > r.id)
  }

  lemma {:induction false} ListsCount(s: seq<Row>, t: Table)
    requires Lists(s, t)
    ensures |s| == |t|
    decreases |s|
  {
    EmptyLists(s, t);
    if s != [] {
      assert s == [s[0]] + s[1..];
      assert forall r :: r in s[1..] ==> r in s && r != s[0];
      ListsCount(s[1..], t - {s[0]});
    }
  }

  lemma TakeHas(s: seq<Row>, n: nat, j: nat)
    requires j < |s|
    ensures j < n ==> s[j] in Take(s, n)
  {
    if j < n {
      assert Take(s, n)[j] == s[j];
    }
  }

  lemma TakeNewest(t: Table, n: nat)
    requires Keyed(t)
    ensures NewestOf(Take(Listing(t), n), t, n)
  {
    var s := Listing(t);
    ListsCount(s, t);
    forall r, i | r in t && r !in Take(s, n) && 0 <= i < |Take(s, n)|
      ensures s[i].recordedAt > r.recordedAt || (s[i].recordedAt == r.recordedAt && s[i].id > r.id)
    {
      assert r in s;
      var j :| 0 <= j < |s| && s[j] == r;
      TakeHas(s, n, j);
      assert Before(s[i], s[j]);
    }
  }

  class Store {
    var rows: Table
    var lastId: nat
    const redact: string -> string
    ghost var all: Table

    ghost function View(): Log
      reads this
    {
      Log(rows, all, lastId)
    }

    constructor (redact: string -> string)
      ensures View() == Log({}, {}, 0) && LogOk(View()) && this.redact == redact
    {
      this.redact := redact;
      rows, lastId, all := {}, 0, {};
      EmptyLogOk();
    }

    method LogOperation(entry: Entry, now: int, inserts: bool, trims: bool) returns (failed: bool)
      requires LogOk(View())
      modifies this
      ensures LogOk(View()) && View() == Step(old(View()), Call(Sanitized(entry, redact), now, inserts, trims))
      ensures entry.action == "" || !inserts ==> all == old(all) && rows == old(rows)
      ensures entry.action != "" && inserts ==>
                && (exists r :: all == old(all) + {r} && NewRow(r, old(all), entry, now, redact))
                && (!trims ==> exists r :: rows == old(rows) + {r} && NewRow(r, old(all), entry, now, redact))
      ensures failed == (entry.action == "" || !inserts || !trims)
    {
      if entry.action == "" || !inserts {
        return true;
      }
      var message := redact(entry.message);
      if |message| > MAX_MESSAGE {
        message := message[..MAX_MESSAGE] + "...";
      }
      var r := Row(lastId + 1, now, entry.(message := message));
      assert NewRow(r, all, entry, now, redact);
      InsertKeepsNewest(rows, all, r);
      rows, all, lastId := rows + {r}, all + {r}, lastId + 1;
      if !trims {
        return true;
      }
      TrimKeepsNewest(rows, all);
      var newest := OrderBy(rows);
      if |newest| > KEPT {
        newest := newest[..KEPT];
      }
      rows := set q | q in newest;
      return false;
    }

    /** The newest entries of everything ever logged; an out-of-range limit means 100. */
    method ListOperations(limit: int) returns (entries: seq<Row>)
      requires LogOk(View())
      ensures entries == Take(Listing(all), if limit <= 0 || limit > KEPT then 100 else limit)
      ensures NewestOf(entries, all, if 1 <= limit <= 1000 then limit else 100)
    {
      var n := if limit <= 0 || limit > KEPT then 100 else limit;
      var s := OrderBy(rows);
      TakeTake(Listing(rows), n);
      TakeTake(Listing(all), n);
      TakeNewest(all, n);
      entries := if |s| > n then s[..n] else s;
    }
  }
}
