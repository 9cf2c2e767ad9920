/** The deep USB recovery (usb_port_recovery.c:50-248) over a modelled sysfs tree: which attribute is written, in what
    order, and when nothing may be written at all. Replies to writes, and what the kernel makes of the tree after one,
    are arbitrary. */
module PortRecovery {
  import opened Bytes

  datatype Reply = Done | Denied | Missing | Rejected

  /** One write_attr() call and how it ended. */
  datatype SysfsWrite = SysfsWrite(dir: string, attr: string, value: string, reply: Reply)

  datatype DeepOutcome = NoTarget | RefusedSharedHub | RefusedIdentity | Unavailable | AccessDenied | Failed
                       | DeviceReprobed | PortCycled

  datatype Target = Target(devicePath: string, portPath: string, vendorId: nat, productId: nat)

  /** What the element can see of the tree. */
  datatype View = View(existing: set<string>, directories: set<string>, listings: map<string, seq<string>>,
                       numbers: map<string, nat>, links: map<string, string>)

  function Join(dir: string, name: string): string {
    dir + "/" + name
  }

  /** The position of the last slash, None when there is none. */
  function LastSlash(path: string): (at: Option<nat>)
    ensures at.Some? ==> at.value < |path| && path[at.value] == '/'
    ensures forall i :: 0 <= i < |path| && path[i] == '/' ==> at.Some? && i <= at.value
  {
    if path == "" then None
    else if path[|path| - 1] == '/' then Some(|path| - 1)
    else LastSlash(path[..|path| - 1])
  }

  function Dirname(path: string): string {
    match LastSlash(path) case None => "." case Some(at) => path[..at]
  }

  function Basename(path: string): string {
    match LastSlash(path) case None => path case Some(at) => path[at + 1..]
  }

  /** strstr() */
  predicate Contains(s: string, part: string) {
    |part| <= |s| && (s[..|part|] == part || (s != "" && Contains(s[1..], part)))
  }

  predicate IdentityMatches(view: View, devicePath: string, vendorId: nat, productId: nat) {
    && Join(devicePath, "idVendor") in view.numbers && Join(devicePath, "idProduct") in view.numbers
    && view.numbers[Join(devicePath, "idVendor")] == vendorId
      && view.numbers[Join(devicePath, "idProduct")] == productId
  }

  /** A sibling port that holds a device. */
  predicate BusySibling(view: View, portPath: string, name: string) {
    Contains(name, "-port") && name != Basename(portPath)
      && Join(Join(Dirname(portPath), name), "device") in view.existing
  }

  /** An unreadable hub counts as shared. */
  ghost predicate SharedHub(view: View, portPath: string) {
    Dirname(portPath) in view.listings ==>
      exists i :: 0 <= i < |view.listings[Dirname(portPath)]|
        && BusySibling(view, portPath, view.listings[Dirname(portPath)][i])
  }

  predicate PortOccupied(view: View, target: Target) {
    Join(target.portPath, "device") in view.existing
  }

  /** A device other than the captured one sits at the captured port or under the captured path. */
  predicate Stranger(view: View, target: Target) {
    || (PortOccupied(view, target)
        && !IdentityMatches(view, Join(target.portPath, "device"), target.vendorId, target.productId))
    || (target.devicePath in view.directories
        && !IdentityMatches(view, target.devicePath, target.vendorId, target.productId))
  }

  function ErrorOf(reply: Reply): DeepOutcome
    requires reply != Done
  {
    match reply case Denied => AccessDenied case Missing => Unavailable case Rejected => Failed
  }

  /** The two writes of a cycle as far as they were made, and the outcome that goes with them. */
  ghost predicate Cycle(tail: seq<SysfsWrite>, dir: string, attr: string, off: string, on: string,
                        outcome: DeepOutcome, success: DeepOutcome) {
    if |tail| == 1 then
      && tail[0] == SysfsWrite(dir, attr, off, tail[0].reply)
      && tail[0].reply != Done
      && outcome == ErrorOf(tail[0].reply)
    else
      && |tail| == 2
      && tail[0] == SysfsWrite(dir, attr, off, Done)
      && tail[1] == SysfsWrite(dir, attr, on, tail[1].reply)
      && outcome == if tail[1].reply == Done then success else ErrorOf(tail[1].reply)
  }

  /** What one run does, given what it saw on entry. */
  ghost predicate Follows(view: View, target: Option<Target>, tail: seq<SysfsWrite>, outcome: DeepOutcome) {
    match target
    case None => tail == [] && outcome == NoTarget
    case Some(t) =>
      if Stranger(view, t) then tail == [] && outcome == RefusedIdentity
      else if t.devicePath in view.directories then
          Cycle(tail, t.devicePath, "authorized", "0", "1", outcome, DeviceReprobed)
      else if SharedHub(view, t.portPath) then tail == [] && outcome == RefusedSharedHub
      else Cycle(tail, t.portPath, "disable", "1", "0", outcome, PortCycled)
  }

  class Sysfs {
    var view: View
    /** Every attempted write in order. */
    var writes: seq<SysfsWrite>

    constructor (view: View)
      ensures this.view == view && writes == []
    {
      this.view := view;
      writes := [];
    }

    /** write_attr(): the kernel may change anything it shows in answer. */
    method WriteAttr(dir: string, attr: string, value: string, error: DeepOutcome)
      returns (ok: bool, error': DeepOutcome)
      modifies this
      ensures |writes| == |old(writes)| + 1 && writes[..|old(writes)|] == old(writes)
      ensures var last := writes[|old(writes)|];
              && last == SysfsWrite(dir, attr, value, last.reply)
              && (ok <==> last.reply == Done) && error' == if ok then error else ErrorOf(last.reply)
    {
      var reply: Reply := *;
      var after: View := *;
      writes := writes + [SysfsWrite(dir, attr, value, reply)];
      view := after;
      ok, error' := reply == Done, error;
      if !ok {
        error' := if reply == Denied then AccessDenied else if reply == Missing then Unavailable else Failed;
      }
    }

    method HubCarriesOtherDevices(portPath: string) returns (shared: bool)
      ensures shared <==> SharedHub(view, portPath)
    {
      var hub, self := Dirname(portPath), Basename(portPath);
      if hub !in view.listings { return true; }
      var names := view.listings[hub];
      shared := false;
      var i := 0;
      while !shared && i < |names|
        invariant 0 <= i <= |names|
        invariant shared <==> exists k :: 0 <= k < i && BusySibling(view, portPath, names[k])
      {
        var name := names[i];
        i := i + 1;
        if !Contains(name, "-port") || name == self { continue; }
        shared := Join(Join(hub, name), "device") in view.existing;
      }
    }

    /** usb_deep_recovery_run() */
    method Run(target: Option<Target>) returns (outcome: DeepOutcome)
      modifies this
      ensures |writes| >= |old(writes)| && writes[..|old(writes)|] == old(writes)
      ensures Follows(old(view), target, writes[|old(writes)|..], outcome)
      ensures writes != old(writes) <==>
                && target.Some? && !Stranger(old(view), target.value)
                && (target.value.devicePath in old(view).directories || !SharedHub(old(view), target.value.portPath))
      ensures writes == old(writes) <==> outcome in {NoTarget, RefusedIdentity, RefusedSharedHub}
      ensures outcome in {Unavailable, AccessDenied, Failed} ==>
                var last := writes[|writes| - 1].reply; last != Done && outcome == ErrorOf(last)
      ensures target.Some? && OccupiedByOther(old(view), target.value, target.value.portPath + "/device") ==>
                writes == old(writes) && outcome == RefusedIdentity
      ensures target.Some? && target.value.devicePath in old(view).directories
              && !HasIdentity(old(view), target.value.devicePath, target.value.vendorId, target.value.productId) ==>
                writes == old(writes) && outcome == RefusedIdentity
    {
      if target.None? { return NoTarget; }
      var t := target.value;
      var ok;
      outcome := Failed;
      var occupant := Join(t.portPath, "device");
      JoinIs(t.portPath, "device", "/device");
      IdentityIs(view, occupant, t.vendorId, t.productId);
      IdentityIs(view, t.devicePath, t.vendorId, t.productId);
      var portOccupied := occupant in view.existing;
      var occupantIsOurs := portOccupied && IdentityMatches(view, occupant, t.vendorId, t.productId);
      if portOccupied && !occupantIsOurs { return RefusedIdentity; }
      if t.devicePath in view.directories {
        if !IdentityMatches(view, t.devicePath, t.vendorId, t.productId) { return RefusedIdentity; }
        ok, outcome := WriteAttr(t.devicePath, "authorized", "0", outcome);
        if !ok { return; }
        ok, outcome := WriteAttr(t.devicePath, "authorized", "1", outcome);
        if !ok { return; }
        return DeviceReprobed;
      }
      var shared := HubCarriesOtherDevices(t.portPath);
      if shared { return RefusedSharedHub; }
      ok, outcome := WriteAttr(t.portPath, "disable", "1", outcome);
      if !ok { return; }
      ok, outcome := WriteAttr(t.portPath, "disable", "0", outcome);
      if !ok { return; }
      return PortCycled;
    }

    /** usb_recovery_target_capture(): the first entry of the listing that is the device and has a port. */
    method Capture(devices: string, bus: nat, address: nat) returns (target: Option<Target>)
      ensures target == Captured(view, devices, bus, address)
    {
      target := None;
      if devices !in view.listings { return; }
      var names := view.listings[devices];
      var i := 0;
      while target.None? && i < |names|
        invariant 0 <= i <= |names|
        invariant target.None? ==>
                    FirstTarget(view, devices, names, bus, address) ==
                    FirstTarget(view, devices, names[i..], bus, address)
        invariant target.Some? ==> target == FirstTarget(view, devices, names, bus, address)
      {
        var name := names[i];
        assert names[i..][0] == name && names[i..][1..] == names[i + 1..];
        i := i + 1;
        if ':' in name { continue; }
        var path := Join(devices, name);
        if Is(view, Join(path, "busnum"), bus) && Is(view, Join(path, "devnum"), address)
           && Join(path, "idVendor") in view.numbers && Join(path, "idProduct") in view.numbers {
          if Join(path, "port") in view.links {
            target := Some(Target(path, view.links[Join(path, "port")], view.numbers[Join(path, "idVendor")] % 0x1_0000,
                                  view.numbers[Join(path, "idProduct")] % 0x1_0000));
          }
        }
      }
    }
  }

  predicate Is(view: View, path: string, n: nat) {
    path in view.numbers && view.numbers[path] == n
  }

  /** The entry is a device, not an interface, sits at the address, has an identity and a port. */
  predicate IsDevice(view: View, path: string, name: string, bus: nat, address: nat) {
    && ':' !in name && Is(view, Join(path, "busnum"), bus) && Is(view, Join(path, "devnum"), address)
    && Join(path, "idVendor") in view.numbers && Join(path, "idProduct") in view.numbers
      && Join(path, "port") in view.links
  }

  function FirstTarget(view: View, devices: string, names: seq<string>, bus: nat, address: nat): Option<Target> {
    if names == [] then None
    else
      var path := Join(devices, names[0]);
      if IsDevice(view, path, names[0], bus, address) then
        Some(Target(path, view.links[Join(path, "port")], view.numbers[Join(path, "idVendor")] % 0x1_0000,
                    view.numbers[Join(path, "idProduct")] % 0x1_0000))
      else FirstTarget(view, devices, names[1..], bus, address)
  }

  function Captured(view: View, devices: string, bus: nat, address: nat): Option<Target> {
    if devices in view.listings then FirstTarget(view, devices, view.listings[devices], bus, address) else None
  }

  // ---------- what is never touched ----------

  /** The two attributes under a path hold these numbers. */
  predicate HasIdentity(view: View, path: string, vendorId: nat, productId: nat) {
    && path + "/idVendor" in view.numbers && view.numbers[path + "/idVendor"] == vendorId
    && path + "/idProduct" in view.numbers && view.numbers[path + "/idProduct"] == productId
  }

  /** Something is at the path, and it does not show the target's identity. */
  predicate OccupiedByOther(view: View, t: Target, path: string) {
    path in view.existing && !HasIdentity(view, path, t.vendorId, t.productId)
  }

  lemma {:induction false} JoinIs(path: string, name: string, whole: string)
    requires whole == "/" + name
    ensures Join(path, name) == path + whole
  {
  }

  lemma {:induction false} IdentityIs(view: View, path: string, vendorId: nat, productId: nat)
    ensures HasIdentity(view, path, vendorId, productId) <==> IdentityMatches(view, path, vendorId, productId)
  {
    JoinIs(path, "idVendor", "/idVendor");
    JoinIs(path, "idProduct", "/idProduct");
  }

  lemma {:induction false} PathParts(dir: string, name: string)
    requires '/' !in name
    ensures Dirname(dir + "/" + name) == dir && Basename(dir + "/" + name) == name
  {
    var path := dir + "/" + name;
    assert path[|dir|] == '/';
    forall i | |dir| < i < |path| ensures path[i] != '/' { assert path[i] == name[i - |dir| - 1]; }
    var at := LastSlash(path).value;
    assert path[..at] == dir && path[at + 1..] == name;
  }

  /** `part` stands at position `i`. */
  predicate StandsAt(s: string, part: string, i: nat) {
    i + |part| <= |s| && s[i..i + |part|] == part
  }

  lemma {:induction false} ContainsIs(s: string, part: string)
    ensures Contains(s, part) <==> exists i: nat :: StandsAt(s, part, i)
  {
    if s != "" {
      ContainsIs(s[1..], part);
      forall i: nat | StandsAt(s[1..], part, i) ensures StandsAt(s, part, i + 1) {
        assert s[1..][i..i + |part|] == s[i + 1..i + 1 + |part|];
      }
      forall i: nat | i > 0 && StandsAt(s, part, i) ensures StandsAt(s[1..], part, i - 1) {
        assert s[1..][i - 1..i - 1 + |part|] == s[i..i + |part|];
      }
    }
    assert |part| <= |s| ==> s[0..|part|] == s[..|part|];
    assert StandsAt(s, part, 0) <==> |part| <= |s| && s[..|part|] == part;
  }

  /** Another port of the hub, with -port in its name, that holds a device. */
  ghost predicate HoldsDevice(view: View, hub: string, port: string, sibling: string) {
    && sibling != port && (exists i: nat :: StandsAt(sibling, "-port", i))
    && hub + "/" + sibling + "/device" in view.existing
  }

  lemma {:induction false} BusySiblingIs(view: View, hub: string, port: string, sibling: string)
    requires '/' !in port
    ensures BusySibling(view, hub + "/" + port, sibling) <==> HoldsDevice(view, hub, port, sibling)
  {
    PathParts(hub, port);
    ContainsIs(sibling, "-port");
    JoinIs(hub, sibling, "/" + sibling);
    assert Join(hub, sibling) == hub + "/" + sibling;
    JoinIs(Join(hub, sibling), "device", "/device");
  }

  /** With only the port left, and nothing else at it, the run is refused without a write exactly when the hub cannot be
      listed or another of its ports holds a device. */
  lemma {:induction false} SiblingsAreSafe(view: View, t: Target, tail: seq<SysfsWrite>, outcome: DeepOutcome,
                                           hub: string, port: string)
    requires Follows(view, Some(t), tail, outcome) && t.devicePath !in view.directories
    requires t.portPath == hub + "/" + port && '/' !in port
    requires !OccupiedByOther(view, t, t.portPath + "/device")
    ensures outcome == RefusedSharedHub <==>
              (hub in view.listings ==>
                 exists k :: 0 <= k < |view.listings[hub]| && HoldsDevice(view, hub, port, view.listings[hub][k]))
    ensures tail == [] <==> outcome == RefusedSharedHub
  {
    PathParts(hub, port);
    JoinIs(t.portPath, "device", "/device");
    IdentityIs(view, t.portPath + "/device", t.vendorId, t.productId);
    assert !Stranger(view, t);
    if hub in view.listings {
      forall k | 0 <= k < |view.listings[hub]|
        ensures BusySibling(view, t.portPath, view.listings[hub][k]) <==>
                HoldsDevice(view, hub, port, view.listings[hub][k])
      {
        BusySiblingIs(view, hub, port, view.listings[hub][k]);
      }
    }
  }

  // ---------- what every run keeps ----------

  /** The last value an attribute got from these writes, None when no write reached it. */
  function LastWritten(tail: seq<SysfsWrite>, dir: string, attr: string): Option<string> {
    if tail == [] then None
    else
      var last := tail[|tail| - 1];
      if last.reply == Done && last.dir == dir && last.attr == attr then Some(last.value)
      else LastWritten(tail[..|tail| - 1], dir, attr)
  }

  /** The restore is attempted after every disable that went through, so a run leaves the port disabled exactly when
      that one write was refused, and it reports success exactly when both went through. */
  lemma {:induction false} PortIsRestored(view: View, t: Target, tail: seq<SysfsWrite>, outcome: DeepOutcome)
    requires Follows(view, Some(t), tail, outcome)
    ensures forall i :: 0 <= i < |tail| && tail[i] == SysfsWrite(t.portPath, "disable", "1", Done) ==>
              i + 1 < |tail| && tail[i + 1] == SysfsWrite(t.portPath, "disable", "0", tail[i + 1].reply)
    ensures LastWritten(tail, t.portPath, "disable") == Some("1") <==>
            |tail| == 2 && tail[0].attr == "disable" && tail[1].reply != Done
    ensures outcome == PortCycled <==> LastWritten(tail, t.portPath, "disable") == Some("0")
    ensures outcome == DeviceReprobed <==> LastWritten(tail, t.devicePath, "authorized") == Some("1")
  {
    assert |"authorized"| != |"disable"| && "1"[0] != "0"[0];
    LastOfCycle(tail, t.portPath, "disable");
    LastOfCycle(tail, t.devicePath, "authorized");
  }

  lemma {:induction false} LastOfCycle(tail: seq<SysfsWrite>, dir: string, attr: string)
    requires |tail| <= 2
    ensures LastWritten(tail, dir, attr) ==
            if |tail| == 2 && tail[1].reply == Done && tail[1].dir == dir
              && tail[1].attr == attr then Some(tail[1].value)
            else if |tail| >= 1 && tail[0].reply == Done && tail[0].dir == dir
              && tail[0].attr == attr then Some(tail[0].value)
            else None
  {
    if tail != [] { LastOfCycle(tail[..|tail| - 1], dir, attr); }
  }

  lemma {:induction false} FirstTargetIs(view: View, devices: string, names: seq<string>, bus: nat, address: nat)
    ensures FirstTarget(view, devices, names, bus, address).None? <==>
            forall i :: 0 <= i < |names| ==> !IsDevice(view, Join(devices, names[i]), names[i], bus, address)
    ensures FirstTarget(view, devices, names, bus, address).Some? ==>
              var t := FirstTarget(view, devices, names, bus, address).value;
              && Join(t.devicePath, "port") in view.links && t.portPath == view.links[Join(t.devicePath, "port")]
              && (exists i :: 0 <= i < |names| && t.devicePath == Join(devices, names[i])
                              && IsDevice(view, t.devicePath, names[i], bus, address)
                              && forall j :: 0 <= j < i ==>
                                  !IsDevice(view, Join(devices, names[j]), names[j], bus, address))
              && Is(view, Join(t.devicePath, "busnum"), bus) && Is(view, Join(t.devicePath, "devnum"), address)
              && Join(t.devicePath, "idVendor") in view.numbers && Join(t.devicePath, "idProduct") in view.numbers
              && t.vendorId == view.numbers[Join(t.devicePath, "idVendor")] % 0x1_0000
              && t.productId == view.numbers[Join(t.devicePath, "idProduct")] % 0x1_0000
  {
    if names != [] && !IsDevice(view, Join(devices, names[0]), names[0], bus, address) {
      FirstTargetIs(view, devices, names[1..], bus, address);
      assert forall i :: 1 <= i < |names| ==> names[i] == names[1..][i - 1];
      var rest := names[1..];
      if FirstTarget(view, devices, names, bus, address).Some? {
        var t := FirstTarget(view, devices, rest, bus, address).value;
        var i :| 0 <= i < |rest| && t.devicePath == Join(devices, rest[i])
                 && IsDevice(view, t.devicePath, rest[i], bus, address)
                 && forall j :: 0 <= j < i ==> !IsDevice(view, Join(devices, rest[j]), rest[j], bus, address);
        assert names[i + 1] == rest[i];
        forall j | 0 <= j < i + 1 ensures !IsDevice(view, Join(devices, names[j]), names[j], bus, address) {
          if j > 0 { assert names[j] == rest[j - 1]; }
        }
      }
    }
  }

  /** A captured device is recognised again while its identity stands, provided that fits 16 bits. */
  lemma {:induction false} CapturedIsRecognised(before: View, after: View, devices: string, bus: nat, address: nat)
    requires Captured(before, devices, bus, address).Some?
    ensures var t := Captured(before, devices, bus, address).value;
            && Join(t.devicePath, "idVendor") in before.numbers && Join(t.devicePath, "idProduct") in before.numbers
            && var vid, pid := before.numbers[Join(t.devicePath, "idVendor")],
              before.numbers[Join(t.devicePath, "idProduct")];
               Is(after, Join(t.devicePath, "idVendor"), vid) && Is(after, Join(t.devicePath, "idProduct"), pid) ==>
                 (IdentityMatches(after, t.devicePath, t.vendorId, t.productId) <==> vid < 0x1_0000 && pid < 0x1_0000)
  {
    FirstTargetIs(before, devices, before.listings[devices], bus, address);
  }
}
