/** Choosing the `-destination` argument: a simulator from the device
    inventory (`xcrun simctl list devices --json`), or the caller's own
    simulator name and iOS version. */
module Destination {
  import opened Wrappers
  import opened Strings

  /** One simulated device of a runtime, as the inventory lists it. */
  datatype Device = Device(name: string, isAvailable: bool)

  /** One entry of the inventory's `devices` mapping: a runtime identifier
      such as `com.apple.CoreSimulator.SimRuntime.iOS-18-3-1` and its devices. */
  datatype Runtime = Runtime(id: string, devices: seq<Device>)

  /** The inventory, in the mapping's iteration order. */
  type Inventory = seq<Runtime>

  /** A simulator that can be targeted: a device name and a dotted version. */
  datatype Sim = Sim(name: string, os: string)

  /** The runtimes considered are those whose identifier mentions `iOS`. */
  predicate IsIosRuntime(r: Runtime) {
    Contains(r.id, "iOS")
  }

  /** The dotted version of a runtime: the text after the last `iOS-` of
      its identifier, with every `-` turned into `.`. */
  function RuntimeVersion(id: string): (v: string)
    ensures |v| == |LastPiece(id, "iOS-")|
    ensures '-' !in v
  {
    var v := ReplaceChar(LastPiece(id, "iOS-"), '-', '.');
    assert forall j :: 0 <= j < |v| ==> v[j] != '-';
    v
  }

  /** The destination descriptor `xcodebuild` is given. */
  function Descriptor(name: string, os: string): string {
    "platform=iOS Simulator,name=" + name + ",OS=" + os
  }

  /** The available devices of one runtime, in order, with its version. */
  function AvailableSims(ds: seq<Device>, os: string): (r: seq<Sim>)
    ensures |r| <= |ds|
    ensures forall c :: c in r ==> c.os == os
  {
    if ds == [] then []
    else (if ds[0].isAvailable then [Sim(ds[0].name, os)] else []) + AvailableSims(ds[1..], os)
  }

  /** What one runtime offers: its available devices if it is an iOS one. */
  function RuntimeSims(r: Runtime): seq<Sim> {
    if IsIosRuntime(r) then AvailableSims(r.devices, RuntimeVersion(r.id)) else []
  }

  /** Every simulator the scans may pick, in the order they visit them. */
  function Candidates(inv: Inventory): seq<Sim> {
    if inv == [] then [] else RuntimeSims(inv[0]) + Candidates(inv[1..])
  }

  /** `c` meets whichever criteria were supplied. */
  predicate Wanted(c: Sim, name: Option<string>, os: Option<string>) {
    (!Truthy(name) || c.name == name.value) && (!Truthy(os) || c.os == os.value)
  }

  /** The first simulator of `cs` that meets the criteria. */
  function FirstWanted(cs: seq<Sim>, name: Option<string>, os: Option<string>): (r: Option<Sim>)
    ensures r.Some? ==> r.value in cs && Wanted(r.value, name, os)
    ensures r.None? ==> forall c :: c in cs ==> !Wanted(c, name, os)
    ensures r.Some? ==> exists k :: (0 <= k < |cs| && cs[k] == r.value &&
      forall j :: 0 <= j < k ==> !Wanted(cs[j], name, os))
  {
    if cs == [] then None
    else if Wanted(cs[0], name, os) then Some(cs[0])
    else
      var r := FirstWanted(cs[1..], name, os);
      assert r.Some? ==> exists k :: (0 <= k < |cs| && cs[k] == r.value &&
        forall j :: 0 <= j < k ==> !Wanted(cs[j], name, os)) by {
        if r.Some? {
          var k :| 0 <= k < |cs[1..]| && cs[1..][k] == r.value &&
            forall j :: 0 <= j < k ==> !Wanted(cs[1..][j], name, os);
          assert cs[k + 1] == r.value;
          assert forall j :: 0 < j < k + 1 ==> cs[j] == cs[1..][j - 1];
        }
      }
      r
  }

  /** The error text when the supplied criterion matches nothing. */
  function NoMatchMessage(name: Option<string>, os: Option<string>): string {
    var criteria :=
      (if Truthy(name) then ["name=" + name.value] else []) +
      (if Truthy(os) then ["OS=" + os.value] else []);
    "No available simulator found matching criteria: " + Join(criteria, ", ")
  }

  /** `find_available_simulator`: the first available device under an iOS
      runtime, or the empty string when there is none. */
  function AnySimulator(inv: Inventory): string {
    match FirstWanted(Candidates(inv), None, None)
    case Some(c) => Descriptor(c.name, c.os)
    case None => ""
  }

  /** `build_destination`: both criteria given are used as they are; one
      criterion given selects the first simulator meeting it, failing when
      none does; none given falls back to `find_available_simulator`. */
  function BuildDestinationSpec(inv: Inventory, name: Option<string>, os: Option<string>): Result<string, string> {
    if Truthy(name) && Truthy(os) then Success(Descriptor(name.value, os.value))
    else if Truthy(name) || Truthy(os) then
      match FirstWanted(Candidates(inv), name, os)
      case Some(c) => Success(Descriptor(c.name, c.os))
      case None => Failure(NoMatchMessage(name, os))
    else Success(AnySimulator(inv))
  }

  // ---------------------------------------------------------------------
  // Facts the scans rest on

  /** The first wanted simulator of two runs is the first run's, if any. */
  lemma {:induction false} FirstWantedAppend(a: seq<Sim>, b: seq<Sim>, name: Option<string>, os: Option<string>)
    ensures FirstWanted(a + b, name, os) ==
      if FirstWanted(a, name, os).Some? then FirstWanted(a, name, os) else FirstWanted(b, name, os)
    decreases |a|
  {
    if a == [] {
      assert a + b == b;
    } else {
      assert (a + b)[0] == a[0];
      assert (a + b)[1..] == a[1..] + b;
      FirstWantedAppend(a[1..], b, name, os);
    }
  }

  /** The candidates from runtime `i` on are those of runtime `i`, then
      those from `i + 1` on. */
  lemma CandidatesFrom(inv: Inventory, i: nat)
    requires i < |inv|
    ensures Candidates(inv[i..]) == RuntimeSims(inv[i]) + Candidates(inv[i + 1..])
  {
    assert inv[i..][1..] == inv[i + 1..];
  }

  /** Likewise for the available devices from device `k` on. */
  lemma AvailableFrom(ds: seq<Device>, os: string, k: nat)
    requires k < |ds|
    ensures AvailableSims(ds[k..], os) ==
      (if ds[k].isAvailable then [Sim(ds[k].name, os)] else []) + AvailableSims(ds[k + 1..], os)
  {
    assert ds[k..][1..] == ds[k + 1..];
  }

  // ---------------------------------------------------------------------
  // The scans

  /** The device loop shared by both scans: the first available device of
      `ds` whose name meets the name criterion, if any. */
  method ScanDevices(ds: seq<Device>, os: string, name: Option<string>) returns (found: Option<Sim>)
    ensures found == FirstWanted(AvailableSims(ds, os), name, None)
  {
    for k := 0 to |ds|
      invariant FirstWanted(AvailableSims(ds[k..], os), name, None) == FirstWanted(AvailableSims(ds, os), name, None)
    {
      AvailableFrom(ds, os, k);
      FirstWantedAppend(if ds[k].isAvailable then [Sim(ds[k].name, os)] else [], AvailableSims(ds[k + 1..], os), name, None);
      if ds[k].isAvailable {
        if Truthy(name) && ds[k].name != name.value {
          continue;
        }
        return Some(Sim(ds[k].name, os));
      }
    }
    assert ds[|ds|..] == [];
    return None;
  }

  /** Under a runtime of version `os`, a simulator is wanted for the
      criteria exactly when it is for the name alone, once the version
      criterion, if any, is met. */
  lemma WantedAtVersion(cs: seq<Sim>, os: string, name: Option<string>, version: Option<string>)
    requires forall c :: c in cs ==> c.os == os
    requires !Truthy(version) || version.value == os
    ensures FirstWanted(cs, name, version) == FirstWanted(cs, name, None)
    decreases |cs|
  {
    if cs != [] {
      assert cs[0] in cs;
      assert forall c :: c in cs[1..] ==> c in cs;
      WantedAtVersion(cs[1..], os, name, version);
    }
  }

  /** Under a runtime of another version than the one asked for, nothing
      is wanted. */
  lemma NoneAtOtherVersion(cs: seq<Sim>, os: string, name: Option<string>, version: Option<string>)
    requires forall c :: c in cs ==> c.os == os
    requires Truthy(version) && version.value != os
    ensures FirstWanted(cs, name, version).None?
  {
  }

  /** `find_available_simulator`'s loops over the inventory. */
  method FindAvailableSimulator(inv: Inventory) returns (destination: string)
    ensures destination == AnySimulator(inv)
  {
    for i := 0 to |inv|
      invariant FirstWanted(Candidates(inv[i..]), None, None) == FirstWanted(Candidates(inv), None, None)
    {
      CandidatesFrom(inv, i);
      FirstWantedAppend(RuntimeSims(inv[i]), Candidates(inv[i + 1..]), None, None);
      if Contains(inv[i].id, "iOS") {
        var found := ScanDevices(inv[i].devices, RuntimeVersion(inv[i].id), None);
        if found.Some? {
          return Descriptor(found.value.name, found.value.os);
        }
      }
    }
    assert inv[|inv|..] == [];
    return "";
  }

  /** `build_destination`, with the inventory it would query. */
  method BuildDestination(inv: Inventory, name: Option<string>, os: Option<string>)
    returns (destination: Result<string, string>)
    ensures destination == BuildDestinationSpec(inv, name, os)
  {
    if Truthy(name) && Truthy(os) {
      return Success(Descriptor(name.value, os.value));
    } else if Truthy(name) || Truthy(os) {
      for i := 0 to |inv|
        invariant FirstWanted(Candidates(inv[i..]), name, os) == FirstWanted(Candidates(inv), name, os)
      {
        CandidatesFrom(inv, i);
        FirstWantedAppend(RuntimeSims(inv[i]), Candidates(inv[i + 1..]), name, os);
        if Contains(inv[i].id, "iOS") {
          var version := RuntimeVersion(inv[i].id);
          if Truthy(os) && version != os.value {
            NoneAtOtherVersion(RuntimeSims(inv[i]), version, name, os);
            continue;
          }
          WantedAtVersion(RuntimeSims(inv[i]), version, name, os);
          var found := ScanDevices(inv[i].devices, version, name);
          if found.Some? {
            return Success(Descriptor(found.value.name, found.value.os));
          }
        }
      }
      assert inv[|inv|..] == [];
      return Failure(NoMatchMessage(name, os));
    } else {
      var any := FindAvailableSimulator(inv);
      return Success(any);
    }
  }

  // ---------------------------------------------------------------------
  // What the resolver promises

  /** The simulators the scans consider are exactly the available devices
      of the iOS runtimes, each with its runtime's version. */
  lemma {:induction false} CandidatesMember(inv: Inventory, c: Sim)
    ensures c in Candidates(inv) <==>
      exists i, k :: 0 <= i < |inv| && 0 <= k < |inv[i].devices| && IsIosRuntime(inv[i]) &&
        inv[i].devices[k].isAvailable && c == Sim(inv[i].devices[k].name, RuntimeVersion(inv[i].id))
    decreases |inv|
  {
    if inv != [] {
      CandidatesMember(inv[1..], c);
      AvailableMember(inv[0].devices, RuntimeVersion(inv[0].id), c);
      if c in Candidates(inv) {
        if c in RuntimeSims(inv[0]) {
          var k :| 0 <= k < |inv[0].devices| && inv[0].devices[k].isAvailable &&
            c == Sim(inv[0].devices[k].name, RuntimeVersion(inv[0].id));
          assert IsIosRuntime(inv[0]);
        } else {
          var i, k :| 0 <= i < |inv[1..]| && 0 <= k < |inv[1..][i].devices| && IsIosRuntime(inv[1..][i]) &&
            inv[1..][i].devices[k].isAvailable && c == Sim(inv[1..][i].devices[k].name, RuntimeVersion(inv[1..][i].id));
          assert inv[i + 1] == inv[1..][i];
        }
      }
      if exists i, k :: (0 <= i < |inv| && 0 <= k < |inv[i].devices| && IsIosRuntime(inv[i]) &&
        inv[i].devices[k].isAvailable && c == Sim(inv[i].devices[k].name, RuntimeVersion(inv[i].id)))
      {
        var i, k :| 0 <= i < |inv| && 0 <= k < |inv[i].devices| && IsIosRuntime(inv[i]) &&
          inv[i].devices[k].isAvailable && c == Sim(inv[i].devices[k].name, RuntimeVersion(inv[i].id));
        if i > 0 {
          assert inv[1..][i - 1] == inv[i];
        }
      }
    }
  }

  /** The available devices of one runtime, with its version. */
  lemma {:induction false} AvailableMember(ds: seq<Device>, os: string, c: Sim)
    ensures c in AvailableSims(ds, os) <==>
      exists k :: 0 <= k < |ds| && ds[k].isAvailable && c == Sim(ds[k].name, os)
    decreases |ds|
  {
    if ds != [] {
      AvailableMember(ds[1..], os, c);
      if exists k :: 0 <= k < |ds| && ds[k].isAvailable && c == Sim(ds[k].name, os) {
        var k :| 0 <= k < |ds| && ds[k].isAvailable && c == Sim(ds[k].name, os);
        if k > 0 {
          assert ds[1..][k - 1] == ds[k];
        }
      }
      if c in AvailableSims(ds[1..], os) {
        var k :| 0 <= k < |ds[1..]| && ds[1..][k].isAvailable && c == Sim(ds[1..][k].name, os);
        assert ds[k + 1] == ds[1..][k];
      }
    }
  }

  /** The resolver fails exactly when one criterion is supplied and no
      candidate meets it; it never fails when both or neither are. */
  lemma DestinationFailsIff(inv: Inventory, name: Option<string>, os: Option<string>)
    ensures BuildDestinationSpec(inv, name, os).Failure? <==>
      (Truthy(name) != Truthy(os)) && forall c :: c in Candidates(inv) ==> !Wanted(c, name, os)
  {
    if Truthy(name) != Truthy(os) && forall c :: c in Candidates(inv) ==> !Wanted(c, name, os) {
      assert FirstWanted(Candidates(inv), name, os).None?;
    }
  }

  /** A descriptor chosen from the inventory names an available device of
      an iOS runtime that meets every supplied criterion. */
  lemma ChosenFromInventory(inv: Inventory, name: Option<string>, os: Option<string>)
    requires !(Truthy(name) && Truthy(os))
    requires BuildDestinationSpec(inv, name, os).Success?
    requires BuildDestinationSpec(inv, name, os).value != []
    ensures exists c :: (c in Candidates(inv) && Wanted(c, name, os) &&
      BuildDestinationSpec(inv, name, os).value == Descriptor(c.name, c.os))
  {
    if Truthy(name) || Truthy(os) {
      var c := FirstWanted(Candidates(inv), name, os).value;
      assert Wanted(c, name, os);
    } else {
      var c := FirstWanted(Candidates(inv), None, None).value;
      assert Wanted(c, name, os);
    }
  }

  /** With both criteria supplied the inventory plays no part: any two
      inventories give the descriptor of exactly those values. */
  lemma BothGivenIgnoresInventory(inv1: Inventory, inv2: Inventory, name: string, os: string)
    requires name != [] && os != []
    ensures BuildDestinationSpec(inv1, Some(name), Some(os)) == BuildDestinationSpec(inv2, Some(name), Some(os))
      == Success("platform=iOS Simulator,name=" + name + ",OS=" + os)
  {
  }

  /** Of the simulators meeting the criteria, the first in inventory order
      is chosen: every candidate before it fails a criterion. */
  lemma FirstInInventoryOrder(inv: Inventory, name: Option<string>, os: Option<string>)
    requires Truthy(name) != Truthy(os)
    requires BuildDestinationSpec(inv, name, os).Success?
    ensures exists k :: (0 <= k < |Candidates(inv)| && Wanted(Candidates(inv)[k], name, os) &&
      BuildDestinationSpec(inv, name, os).value == Descriptor(Candidates(inv)[k].name, Candidates(inv)[k].os) &&
      forall j :: 0 <= j < k ==> !Wanted(Candidates(inv)[j], name, os))
  {
    var cs := Candidates(inv);
    var c := FirstWanted(cs, name, os).value;
    var k :| 0 <= k < |cs| && cs[k] == c && forall j :: 0 <= j < k ==> !Wanted(cs[j], name, os);
  }

  /** With only a version asked for, an inventory holding one available
      device under one iOS runtime of that version yields that device. */
  lemma OnlyVersionMatches(id: string, device: string, os: string)
    requires os != [] && Contains(id, "iOS") && RuntimeVersion(id) == os
    ensures BuildDestinationSpec([Runtime(id, [Device(device, true)])], None, Some(os))
      == Success(Descriptor(device, os))
  {
    var inv := [Runtime(id, [Device(device, true)])];
    assert AvailableSims([Device(device, true)], os) == [Sim(device, os)];
    assert Candidates(inv) == [Sim(device, os)] + Candidates([]);
  }

  /** With only a version asked for, an inventory without a runtime of
      that version fails, naming the version. */
  lemma OtherVersionFails(inv: Inventory, os: string)
    requires os != []
    requires forall r :: r in inv ==> RuntimeVersion(r.id) != os
    ensures BuildDestinationSpec(inv, None, Some(os)) == Failure(NoMatchMessage(None, Some(os)))
    ensures NoMatchMessage(None, Some(os)) == "No available simulator found matching criteria: OS=" + os
  {
    forall c | c in Candidates(inv) ensures !Wanted(c, None, Some(os)) {
      CandidatesMember(inv, c);
      var i, k :| 0 <= i < |inv| && 0 <= k < |inv[i].devices| && IsIosRuntime(inv[i]) &&
        inv[i].devices[k].isAvailable && c == Sim(inv[i].devices[k].name, RuntimeVersion(inv[i].id));
      assert inv[i] in inv;
    }
    DestinationFailsIff(inv, None, Some(os));
  }

  /** A derived version is the text after the last `iOS-` with dots for
      dashes: it has no dash left, and it is as long as that text. */
  lemma VersionShape(id: string)
    ensures var v := RuntimeVersion(id);
      var k := PieceStart(id, "iOS-", 0, 0);
      '-' !in v && |v| == |id| - k && !Contains(id[k..], "iOS-") &&
      (k == 0 || (k >= 4 && id[k - 4..k] == "iOS-")) &&
      forall j :: 0 <= j < |v| ==> v[j] == if id[k + j] == '-' then '.' else id[k + j]
  {
    LastPieceSpec(id, "iOS-");
    var v := RuntimeVersion(id);
    assert forall j :: 0 <= j < |v| ==> v[j] != '-';
  }
}
