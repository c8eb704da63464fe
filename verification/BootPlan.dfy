// One-time boot: what is planned for a target, what the client puts back into
// the firmware's boot settings, and the effect of each of the four mutations.
module BootPlan {
  import opened Wrappers
  import opened WsmanValues

  /** A number this client writes is one decimal digit. */
  type Digit = n: nat | n < 10

  /** `source` names a CIM_BootSourceSetting, or is None for a null Source. */
  datatype Plan = Plan(target: string, source: Option<string>, useIder: bool, iderBootDevice: Digit, biosSetup: bool)

  /** The plan's own check: IDE-R and a named source exclude each other. */
  function MakePlan(target: string, source: Option<string>, useIder: bool, iderBootDevice: Digit, biosSetup: bool): Option<Plan> {
    if useIder && source.Some? then None else Some(Plan(target, source, useIder, iderBootDevice, biosSetup))
  }

  const PXE_SOURCE := "Intel(r) AMT: Force PXE Boot"
  const HDD_SOURCE := "Intel(r) AMT: Force Hard-drive Boot"
  const CD_SOURCE := "Intel(r) AMT: Force CD/DVD Boot"

  const BOOT_TARGETS: seq<string> := ["pxe", "hdd", "cd", "bios", "ider_floppy", "ider_cdrom"]

  /** None for a target that is not one of the six. */
  function BuildBootPlan(target: string): Option<Plan> {
    match target
    case "pxe" => MakePlan(target, Some(PXE_SOURCE), false, 0, false)
    case "hdd" => MakePlan(target, Some(HDD_SOURCE), false, 0, false)
    case "cd" => MakePlan(target, Some(CD_SOURCE), false, 0, false)
    case "bios" => MakePlan(target, None, false, 0, true)
    case "ider_floppy" => MakePlan(target, None, true, 0, false)
    case "ider_cdrom" => MakePlan(target, None, true, 1, false)
    case _ => None
  }

  function CapabilityField(target: string): string {
    match target
    case "pxe" => "ForcePXEBoot"
    case "hdd" => "ForceHardDriveBoot"
    case "cd" => "ForceCDorDVDBoot"
    case "bios" => "BIOSSetup"
    case _ => "IDER"
  }

  /** The plan of a target that is offered, and what separates the six plans. */
  lemma PlansAreDistinct(one: string, other: string)
    ensures BuildBootPlan(one).Some? <==> one in BOOT_TARGETS
    ensures one in BOOT_TARGETS && other in BOOT_TARGETS && one != other ==>
              var a, b := BuildBootPlan(one).value, BuildBootPlan(other).value;
              (a.source, a.useIder, a.iderBootDevice, a.biosSetup) != (b.source, b.useIder, b.iderBootDevice, b.biosSetup)
  {
    assert one in BOOT_TARGETS <==> one == "pxe" || one == "hdd" || one == "cd" || one == "bios" || one == "ider_floppy" || one == "ider_cdrom";
    assert other in BOOT_TARGETS <==> other == "pxe" || other == "hdd" || other == "cd" || other == "bios" || other == "ider_floppy" || other == "ider_cdrom";
    assert PXE_SOURCE[20] != HDD_SOURCE[20] && PXE_SOURCE[20] != CD_SOURCE[20] && HDD_SOURCE[20] != CD_SOURCE[20];
  }

  // --- Instances ---

  /** A firmware instance: the element texts of every property; none at all for an absent array or value. */
  type Settings = map<string, seq<string>>

  /** What the client's Get makes of it. */
  type Instance = map<string, Value>

  function Stripped(texts: seq<string>): (vs: seq<Value>)
    ensures |vs| == |texts|
  {
    seq(|texts|, i requires 0 <= i < |texts| => Text(Strip(texts[i])))
  }

  function ReadInstance(settings: Settings): Instance {
    map k | k in settings && settings[k] != [] :: Collapse(Stripped(settings[k])).value
  }

  /** The properties rendered in some order. */
  function RenderAll(settings: Settings, order: seq<string>): seq<Element>
    requires forall i :: 0 <= i < |order| ==> order[i] in settings
  {
    if order == [] then []
    else RenderAll(settings, order[..|order| - 1]) + Render(order[|order| - 1], settings[order[|order| - 1]])
  }

  /** Every property once. */
  predicate IsOrder(settings: Settings, order: seq<string>) {
    && (forall i :: 0 <= i < |order| ==> order[i] in settings)
    && (forall i, j :: 0 <= i < j < |order| ==> order[i] != order[j])
    && (forall k :: k in settings ==> k in order)
  }

  lemma {:induction false} NamedAppend(a: seq<Element>, b: seq<Element>, key: string)
    ensures Named(a + b, key) == Named(a, key) + Named(b, key)
    decreases |b|
  {
    if b == [] {
      assert a + b == a;
    } else {
      assert (a + b)[..|a + b| - 1] == a + b[..|b| - 1];
      NamedAppend(a, b[..|b| - 1], key);
    }
  }

  lemma {:induction false} NamedRender(tag: string, texts: seq<string>, key: string)
    ensures Named(Render(tag, texts), key) == if tag == key then Stripped(texts) else []
    decreases |texts|
  {
    hide Strip;
    if texts != [] {
      var front := texts[..|texts| - 1];
      NamedRender(tag, front, key);
      assert Render(tag, texts)[..|texts| - 1] == Render(tag, front);
      assert Stripped(texts) == Stripped(front) + [Text(Strip(texts[|texts| - 1]))];
    }
  }

  lemma {:induction false} NamedAll(settings: Settings, order: seq<string>, key: string)
    requires forall i :: 0 <= i < |order| ==> order[i] in settings
    requires forall i, j :: 0 <= i < j < |order| ==> order[i] != order[j]
    ensures Named(RenderAll(settings, order), key) == if key in order then Stripped(settings[key]) else []
    decreases |order|
  {
    hide Stripped, Render, Named;
    if order == [] {
      NamedNothing(key);
    } else {
      var front, last := order[..|order| - 1], order[|order| - 1];
      NamedAll(settings, front, key);
      NamedRender(last, settings[last], key);
      NamedAppend(RenderAll(settings, front), Render(last, settings[last]), key);
      assert order == front + [last];
    }
  }

  lemma NamedNothing(key: string)
    ensures Named([], key) == []
  {
  }

  /** Whatever order firmware renders its properties in, the client reads the same instance. */
  lemma OrderDoesNotMatter(settings: Settings, order: seq<string>, key: string)
    requires IsOrder(settings, order)
    ensures Lookup(Fields(RenderAll(settings, order)), key) == Lookup(ReadInstance(settings), key)
  {
    NamedAll(settings, order, key);
    FieldsCollapse(RenderAll(settings, order), key);
    if key in order {
      var i :| 0 <= i < |order| && order[i] == key;
      assert key in settings;
    }
  }

  // --- The Put ---

  const DELETE_BEFORE_PUT_FIELDS: seq<string> :=
    ["WinREBootEnabled", "UEFILocalPBABootEnabled", "UEFIHTTPSBootEnabled", "SecureBootControlEnabled",
     "BootguardStatus", "OptionsCleared", "BIOSLastStatus", "UefiBootParametersArray"]
  const ZERO_IF_PRESENT_FIELDS: seq<string> := ["UefiBootNumberOfParams"]
  const OPTIONAL_ERASE_FIELDS: seq<string> := ["SecureErase", "PlatformErase"]

  /** The fields newer firmware refuses to be sent back. */
  const READONLY_BOOT_FIELDS: set<string> :=
    {"WinREBootEnabled", "UEFILocalPBABootEnabled", "UEFIHTTPSBootEnabled", "SecureBootControlEnabled",
     "BootguardStatus", "OptionsCleared", "BIOSLastStatus", "UefiBootParametersArray"}

  /** A property of the client's dictionary: as read, or set by the client. */
  datatype Property = AsRead(value: Value) | Flag(on: bool) | Number(n: Digit)

  function Fixed(plan: Plan): map<string, Property> {
    map["ConfigurationDataReset" := Flag(false), "BIOSPause" := Flag(false), "EnforceSecureBoot" := Flag(false),
        "BIOSSetup" := Flag(plan.biosSetup), "BootMediaIndex" := Number(0), "FirmwareVerbosity" := Number(0),
        "ForcedProgressEvents" := Flag(false), "IDERBootDevice" := Number(plan.iderBootDevice),
        "LockKeyboard" := Flag(false), "LockPowerButton" := Flag(false), "LockResetButton" := Flag(false),
        "LockSleepButton" := Flag(false), "ReflashBIOS" := Flag(false), "UseIDER" := Flag(plan.useIder),
        "UseSOL" := Flag(plan.useIder), "UseSafeMode" := Flag(false), "UserPasswordBypass" := Flag(false)]
  }

  /** What the Put must carry, property by property; None is a property it must not carry. */
  function Wanted(read: Instance, plan: Plan, key: string): Option<Property> {
    if key in Fixed(plan) then Some(Fixed(plan)[key])
    else if key !in read || key in READONLY_BOOT_FIELDS then None
    else if key in OPTIONAL_ERASE_FIELDS then Some(Flag(false))
    else if key in ZERO_IF_PRESENT_FIELDS then Some(Number(0))
    else Some(AsRead(read[key]))
  }

  ghost predicate Carries(mutated: map<string, Property>, read: Instance, plan: Plan) {
    forall key :: (if key in mutated then Some(mutated[key]) else None) == Wanted(read, plan, key)
  }

  method Without(m: map<string, Property>, fields: seq<string>) returns (r: map<string, Property>)
    ensures forall k :: k in r <==> k in m && k !in fields
    ensures forall k :: k in r ==> r[k] == m[k]
  {
    r := m;
    for i := 0 to |fields|
      invariant forall k :: k in r <==> k in m && k !in fields[..i]
      invariant forall k :: k in r ==> r[k] == m[k]
    {
      r := r - {fields[i]};
      assert fields[..i + 1] == fields[..i] + [fields[i]];
    }
    assert fields[..|fields|] == fields;
  }

  method ZeroIfPresent(m: map<string, Property>, fields: seq<string>) returns (r: map<string, Property>)
    ensures r.Keys == m.Keys
    ensures forall k :: k in r ==> r[k] == if k in fields then Number(0) else m[k]
  {
    r := m;
    for i := 0 to |fields|
      invariant r.Keys == m.Keys
      invariant forall k :: k in r ==> r[k] == if k in fields[..i] then Number(0) else m[k]
    {
      if fields[i] in r {
        r := r[fields[i] := Number(0)];
      }
      assert fields[..i + 1] == fields[..i] + [fields[i]];
    }
    assert fields[..|fields|] == fields;
  }

  method EraseIfRead(m: map<string, Property>, read: Instance, fields: seq<string>) returns (r: map<string, Property>)
    ensures forall k :: k in r <==> k in m || (k in fields && k in read)
    ensures forall k :: k in r ==> r[k] == if k in fields && k in read then Flag(false) else m[k]
  {
    r := m;
    for i := 0 to |fields|
      invariant forall k :: k in r <==> k in m || (k in fields[..i] && k in read)
      invariant forall k :: k in r ==> r[k] == if k in fields[..i] && k in read then Flag(false) else m[k]
    {
      if fields[i] in read {
        r := r[fields[i] := Flag(false)];
      }
      assert fields[..i + 1] == fields[..i] + [fields[i]];
    }
    assert fields[..|fields|] == fields;
  }

  /** The field lists, one loop each, on a copy of what was read. */
  method BuildPutProperties(read: Instance, plan: Plan) returns (mutated: map<string, Property>)
    ensures Carries(mutated, read, plan)
  {
    hide Fixed;
    mutated := map k | k in read :: AsRead(read[k]);
    mutated := Without(mutated, DELETE_BEFORE_PUT_FIELDS);
    mutated := ZeroIfPresent(mutated, ZERO_IF_PRESENT_FIELDS);
    mutated := mutated + Fixed(plan);
    mutated := EraseIfRead(mutated, read, OPTIONAL_ERASE_FIELDS);
    forall key
      ensures (if key in mutated then Some(mutated[key]) else None) == Wanted(read, plan, key)
    {
      ListsAreApart(plan, key);
    }
  }

  /** The deny list is the read-only list, and the other lists have no field in common with it or with the fixed ones. */
  lemma ListsAreApart(plan: Plan, key: string)
    ensures key in DELETE_BEFORE_PUT_FIELDS <==> key in READONLY_BOOT_FIELDS
    ensures key in READONLY_BOOT_FIELDS ==> key !in Fixed(plan)
    ensures key in OPTIONAL_ERASE_FIELDS || key in ZERO_IF_PRESENT_FIELDS ==> key !in Fixed(plan) && key !in READONLY_BOOT_FIELDS
    ensures key in OPTIONAL_ERASE_FIELDS ==> key !in ZERO_IF_PRESENT_FIELDS
  {
    hide Fixed;
    DeleteListIsReadOnly(key);
    if key in READONLY_BOOT_FIELDS {
      ReadOnlyIsNotFixed(plan, key);
    }
    ErasedAndZeroed(plan, key);
  }

  lemma ReadOnlyIsNotFixed(plan: Plan, key: string)
    requires key in READONLY_BOOT_FIELDS
    ensures key !in Fixed(plan)
  {
  }

  lemma ErasedAndZeroed(plan: Plan, key: string)
    ensures key in OPTIONAL_ERASE_FIELDS <==> key == "SecureErase" || key == "PlatformErase"
    ensures key in ZERO_IF_PRESENT_FIELDS <==> key == "UefiBootNumberOfParams"
    ensures "SecureErase" !in Fixed(plan) && "PlatformErase" !in Fixed(plan) && "UefiBootNumberOfParams" !in Fixed(plan)
  {
  }

  lemma DeleteListIsReadOnly(key: string)
    ensures key in DELETE_BEFORE_PUT_FIELDS <==> key in READONLY_BOOT_FIELDS
  {
  }
}
