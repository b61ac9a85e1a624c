/**
 Telling which controller, port and device a storage key such as "SATA-0-0"
 belongs to. Controller names may contain dashes, so one parser tries the names
 longest first, and another splits the key with the pattern (.*)-(\d+)-(\d+).
 */
module AttachmentKeys {
  import opened Common
  import opened Text

  datatype Place = Place(controller: string, port: int, device: int)

  // ---- longest name first ----

  function LastDash(s: string): (d: int)
    ensures -1 <= d < |s|
    ensures d >= 0 ==> s[d] == '-'
    ensures forall i :: d < i < |s| ==> s[i] != '-'
  {
    if s == "" then -1
    else if s[|s| - 1] == '-' then |s| - 1
    else LastDash(s[..|s| - 1])
  }

  function PortAndDevice(controller: string, rest: string): Option<Place> {
    var dash := LastDash(rest);
    if dash <= 0 then None
    else
      var port, device := Atoi(rest[..dash]), Atoi(rest[dash + 1..]);
      if port.None? || device.None? then None else Some(Place(controller, port.value, device.value))
  }

  predicate Starts(key: string, name: string) {
    |name| < |key| && key[..|name|] == name && key[|name|] == '-'
  }

  /** The first name the key starts with decides; if what follows does not parse, the key is dropped. */
  function Attributed(names: seq<string>, key: string): Option<Place> {
    if names == [] then None
    else if Starts(key, names[0]) then PortAndDevice(names[0], key[|names[0]| + 1..])
    else Attributed(names[1..], key)
  }

  method Attribute(names: seq<string>, key: string) returns (place: Option<Place>)
    ensures place == Attributed(names, key)
  {
    var i := 0;
    while i < |names|
      invariant i <= |names|
      invariant Attributed(names, key) == Attributed(names[i..], key)
    {
      var name := names[i];
      assert names[i..][0] == name && names[i..][1..] == names[i + 1..];
      if |name| < |key| && key[..|name|] == name && key[|name|] == '-' {
        return PortAndDevice(name, key[|name| + 1..]);
      }
      i := i + 1;
    }
    return None;
  }

  // ---- the pattern ----

  /** The pattern's three groups. The digit groups cannot hold a dash, so the split is forced. */
  function Split(key: string): Option<(string, string, string)> {
    var d := LastDash(key);
    if d < 0 then None
    else
      var e := LastDash(key[..d]);
      var port, device := key[e + 1..d], key[d + 1..];
      if e < 0 || port == "" || device == "" || !AllDigits(port) || !AllDigits(device) then None
      else Some((key[..e], port, device))
  }

  function Key(name: string, port: string, device: string): string {
    name + "-" + port + "-" + device
  }

  lemma LastDashAt(s: string, d: int)
    requires 0 <= d < |s| && s[d] == '-' && forall i :: d < i < |s| ==> s[i] != '-'
    ensures LastDash(s) == d
  {
  }

  lemma NoDashIn(s: string)
    requires AllDigits(s)
    ensures LastDash(s) == -1
  {
  }

  lemma TailDigits(head: string, tail: string, i: nat)
    requires AllDigits(tail) && |head| < i < |head + "-" + tail|
    ensures IsDigit((head + "-" + tail)[i])
  {
    assert (head + "-" + tail)[i] == tail[i - |head| - 1];
  }

  lemma TailDash(head: string, tail: string)
    requires AllDigits(tail)
    ensures |head| < |head + "-" + tail| && LastDash(head + "-" + tail) == |head|
  {
    var s := head + "-" + tail;
    assert s[|head|] == '-';
    forall i | |head| < i < |s|
      ensures s[i] != '-'
    {
      TailDigits(head, tail, i);
    }
    LastDashAt(s, |head|);
  }

  lemma Joined(head: string, tail: string)
    ensures var s := head + "-" + tail;
            |s| == |head| + 1 + |tail| && s[..|head|] == head && s[|head|] == '-' && s[|head| + 1..] == tail
  {
  }

  /** A key matches the pattern in one way only, whatever dashes its name has. */
  lemma SplitKey(name: string, port: string, device: string)
    requires port != "" && device != "" && AllDigits(port) && AllDigits(device)
    ensures Split(Key(name, port, device)) == Some((name, port, device))
  {
    var head := name + "-" + port;
    Joined(head, device);
    Joined(name, port);
    TailDash(head, device);
    TailDash(name, port);
    var key := Key(name, port, device);
    assert key == head + "-" + device;
    assert key[|name| + 1..|head|] == key[..|head|][|name| + 1..] == port;
    assert key[..|name|] == key[..|head|][..|name|] == name;
  }

  // ---- when the two agree ----

  /** Longer names come first; names of equal length come in any order. */
  ghost predicate LongestFirst(names: seq<string>) {
    forall i, j :: 0 <= i < j < |names| ==> |names[i]| >= |names[j]|
  }

  /** No controller is called "<another controller>-<number>". */
  ghost predicate Unambiguous(names: seq<string>) {
    forall a, b, x :: a in names && b in names && Numeral(x) ==> b != a + "-" + x
  }

  /** After the first separator, a key has exactly one more dash. */
  lemma DashesOfKey(name: string, port: string, device: string, i: nat)
    requires AllDigits(port) && AllDigits(device)
    requires |name| < i < |Key(name, port, device)| && Key(name, port, device)[i] == '-'
    ensures i == |name + "-" + port|
  {
    var head := name + "-" + port;
    assert i < |head| ==> Key(name, port, device)[i] == head[i];
    if i > |head| {
      TailDigits(head, device, i);
    } else if i < |head| {
      TailDigits(name, port, i);
    }
  }

  lemma OnlyNameThatStarts(names: seq<string>, name: string, port: string, device: string, other: string)
    requires Unambiguous(names) && name in names && other in names && Numeral(port) && Numeral(device)
    requires |other| >= |name| && Starts(Key(name, port, device), other)
    ensures other == name
  {
    var key, head := Key(name, port, device), name + "-" + port;
    Joined(head, device);
    if |other| == |name| {
      assert key[..|name|] == name;
    } else {
      DashesOfKey(name, port, device, |other|);
    }
  }

  lemma RestOfKey(name: string, port: string, device: string)
    ensures Starts(Key(name, port, device), name)
    ensures Key(name, port, device)[|name| + 1..] == port + "-" + device
  {
    var rest := port + "-" + device;
    assert Key(name, port, device) == name + "-" + rest;
    Joined(name, rest);
  }

  lemma PlaceOfRest(name: string, port: string, device: string)
    requires Numeral(port) && Numeral(device)
    ensures PortAndDevice(name, port + "-" + device) == Some(Place(name, Value(port), Value(device)))
  {
    Joined(port, device);
    TailDash(port, device);
    NumeralAtoi(port);
    NumeralAtoi(device);
  }

  lemma PlaceOfKey(name: string, port: string, device: string)
    requires Numeral(port) && Numeral(device)
    ensures var key := Key(name, port, device);
            && Starts(key, name)
            && PortAndDevice(name, key[|name| + 1..]) == Some(Place(name, Value(port), Value(device)))
  {
    RestOfKey(name, port, device);
    PlaceOfRest(name, port, device);
  }

  lemma {:induction false} FirstThatStarts(names: seq<string>, all: seq<string>, name: string, port: string, device: string)
    requires Unambiguous(all) && LongestFirst(names) && name in names && forall n :: n in names ==> n in all
    requires Numeral(port) && Numeral(device)
    ensures Attributed(names, Key(name, port, device)) == Some(Place(name, Value(port), Value(device)))
    decreases |names|
  {
    var key := Key(name, port, device);
    PlaceOfKey(name, port, device);
    assert names[0] in names && names[0] in all;
    if Starts(key, names[0]) {
      var i :| 0 <= i < |names| && names[i] == name;
      OnlyNameThatStarts(all, name, port, device, names[0]);
    } else {
      FirstThatStarts(names[1..], all, name, port, device);
    }
  }

  /** The key is that name, a port and a device, with dashes between them. */
  predicate KeyOf(key: string, name: string, port: string, device: string) {
    key == name + "-" + (port + "-" + device)
  }

  /** The key is the controller's name and numerals that read as the port and the device. */
  ghost predicate Describes(key: string, place: Place) {
    exists port, device :: KeyOf(key, place.controller, port, device) && Atoi(port) == Some(place.port) && Atoi(device) == Some(place.device)
  }

  lemma CutAt(s: string, d: nat)
    requires d < |s| && s[d] == '-'
    ensures s == s[..d] + "-" + s[d + 1..]
  {
  }

  lemma StartsCut(name: string, key: string)
    requires Starts(key, name)
    ensures key == name + "-" + key[|name| + 1..]
  {
    CutAt(key, |name|);
  }

  lemma PlaceCut(name: string, rest: string)
    requires PortAndDevice(name, rest).Some?
    ensures var d, place := LastDash(rest), PortAndDevice(name, rest).value;
            && 0 < d < |rest| && rest == rest[..d] + "-" + rest[d + 1..]
            && place.controller == name && Atoi(rest[..d]) == Some(place.port) && Atoi(rest[d + 1..]) == Some(place.device)
  {
    CutAt(rest, LastDash(rest));
  }

  lemma KeyDescribes(key: string, name: string, rest: string, port: string, device: string, place: Place)
    requires key == name + "-" + rest && rest == port + "-" + device && place.controller == name
    requires Atoi(port) == Some(place.port) && Atoi(device) == Some(place.device)
    ensures Describes(key, place)
  {
    assert KeyOf(key, place.controller, port, device);
  }

  lemma RestDescribes(name: string, key: string)
    requires Starts(key, name) && PortAndDevice(name, key[|name| + 1..]).Some?
    ensures Describes(key, PortAndDevice(name, key[|name| + 1..]).value)
  {
    var rest := key[|name| + 1..];
    StartsCut(name, key);
    PlaceCut(name, rest);
    var d := LastDash(rest);
    KeyDescribes(key, name, rest, rest[..d], rest[d + 1..], PortAndDevice(name, rest).value);
  }

  /** A key attributed at all is one of the controller, port and device it is attributed to. */
  lemma {:induction false} AttributedMeans(names: seq<string>, key: string)
    requires Attributed(names, key).Some?
    ensures Attributed(names, key).value.controller in names && Describes(key, Attributed(names, key).value)
    decreases |names|
  {
    if Starts(key, names[0]) {
      RestDescribes(names[0], key);
    } else {
      AttributedMeans(names[1..], key);
    }
  }

  /** The key of a device of name, for a name that is also another's name and a number, is dropped. */
  lemma {:induction false} AmbiguousDropped(names: seq<string>, a: string, x: string, device: string)
    requires LongestFirst(names) && (a + "-" + x) in names && Numeral(x) && Numeral(device)
    ensures forall p, d :: Attributed(names, Key(a, x, device)) != Some(Place(a, p, d))
    decreases |names|
  {
    var b, key := a + "-" + x, Key(a, x, device);
    assert key == b + "-" + device;
    Joined(b, device);
    NoDashIn(device);
    var i :| 0 <= i < |names| && names[i] == b;
    assert |names[0]| >= |b| > |a|;
    if !Starts(key, names[0]) {
      AmbiguousDropped(names[1..], a, x, device);
    }
  }

  ghost predicate AttributesAll(names: seq<string>) {
    forall name, port, device :: name in names && Numeral(port) && Numeral(device) ==>
      Attributed(names, Key(name, port, device)) == Some(Place(name, Value(port), Value(device)))
  }

  /**
   With the names longest first, in any order among equals, every key of every
   controller goes to that controller, port and device, as the pattern splits it,
   if and only if no controller is named "<another controller>-<number>".
   */
  lemma LongestFirstIsRight(names: seq<string>)
    requires LongestFirst(names)
    ensures AttributesAll(names) <==> Unambiguous(names)
    ensures forall name, port, device :: Numeral(port) && Numeral(device) ==>
              Split(Key(name, port, device)) == Some((name, port, device))
  {
    forall name, port, device | Numeral(port) && Numeral(device)
      ensures Split(Key(name, port, device)) == Some((name, port, device))
    {
      SplitKey(name, port, device);
    }
    if Unambiguous(names) {
      forall name, port, device | name in names && Numeral(port) && Numeral(device)
        ensures Attributed(names, Key(name, port, device)) == Some(Place(name, Value(port), Value(device)))
      {
        FirstThatStarts(names, names, name, port, device);
      }
    } else {
      var a, b, x :| a in names && b in names && Numeral(x) && b == a + "-" + x;
      AmbiguousDropped(names, a, x, x);
      assert Attributed(names, Key(a, x, x)) != Some(Place(a, Value(x), Value(x)));
    }
  }
}
