// Arming a one-time boot: five steps against a firmware that may refuse, or
// carry out without answering, any of them.
module BootArming {
  import opened Wrappers
  import opened WsmanValues
  import opened BootPlan

  /** The part of the firmware's state that arming concerns. */
  datatype Boot = Boot(source: Option<string>, role: int, settings: Settings)

  /** Every request of the sequence; the middle four are the mutations. */
  datatype Request = Capabilities | Sources | ReadBefore | ClearOrder | PutSettings | SetRole | SetOrder | ReadAfter

  /** Answered; refused without effect; or carried out with the answer lost. */
  datatype Fate = Answers | Refuses | Loses

  datatype Reason = NoToken | UnknownTarget | Unsupported | Failed(at: Request)

  datatype Outcome =
    | Refused(reason: Reason)
    | DryRun(previous: Instance)
    | Armed(previous: Instance, observed: Instance)

  const ROLE_NEXT_SINGLE_USE := 1

  /** How a value that is not text is written into a request, left to the language. */
  type Repr = Value -> string

  function Coerce(repr: Repr, p: Property): string {
    match p
    case AsRead(Text(s)) => s
    case AsRead(v) => repr(v)
    case Flag(on) => if on then "true" else "false"
    case Number(n) => ['0' + n as char]
  }

  /** The texts of the Put's body. */
  function Body(repr: Repr, mutated: map<string, Property>): map<string, string> {
    map k | k in mutated :: Coerce(repr, mutated[k])
  }

  /** A Put merges: what it does not mention keeps its value. */
  function Merge(settings: Settings, body: map<string, string>): Settings {
    settings + map k | k in body :: [body[k]]
  }

  class Firmware {
    const capabilities: seq<Instance>
    const sources: seq<Instance>
    /** Whether read-only fields in a Put are refused. */
    const strict: bool
    const fate: Request -> Fate

    var source: Option<string>
    var role: int
    var settings: Settings

    ghost function State(): Boot
      reads this
    {
      Boot(source, role, settings)
    }

    method Enumerate(request: Request) returns (r: Option<seq<Instance>>)
      ensures r == if fate(request).Answers? then Some(if request.Capabilities? then capabilities else sources) else None
    {
      if !fate(request).Answers? {
        return None;
      }
      return Some(if request.Capabilities? then capabilities else sources);
    }

    method Get(request: Request) returns (r: Option<Instance>)
      ensures r == if fate(request).Answers? then Some(ReadInstance(settings)) else None
    {
      if !fate(request).Answers? {
        return None;
      }
      return Some(ReadInstance(settings));
    }

    method ChangeBootOrder(request: Request, newSource: Option<string>) returns (ok: bool)
      modifies this`source
      ensures source == if fate(request).Refuses? then old(source) else newSource
      ensures ok <==> fate(request).Answers?
    {
      if !fate(request).Refuses? {
        source := newSource;
      }
      return fate(request).Answers?;
    }

    method Put(body: map<string, string>) returns (ok: bool)
      modifies this`settings
      ensures var taken := !fate(PutSettings).Refuses? && !(strict && body.Keys * READONLY_BOOT_FIELDS != {});
              && settings == (if taken then Merge(old(settings), body) else old(settings))
              && (ok <==> taken && fate(PutSettings).Answers?)
    {
      if fate(PutSettings).Refuses? || (strict && body.Keys * READONLY_BOOT_FIELDS != {}) {
        return false;
      }
      settings := Merge(settings, body);
      return fate(PutSettings).Answers?;
    }

    /** None is a Role that is missing or not a number. */
    method SetBootConfigRole(newRole: Option<int>) returns (ok: bool)
      modifies this`role
      ensures role == if fate(SetRole).Refuses? || newRole.None? then old(role) else newRole.value
      ensures ok <==> fate(SetRole).Answers? && newRole.Some?
    {
      if fate(SetRole).Refuses? || newRole.None? {
        return false;
      }
      role := newRole.value;
      return fate(SetRole).Answers?;
    }
  }

  // --- Discovery ---

  function Lower(c: char): char {
    if 'A' <= c <= 'Z' then c - 'A' + 'a' else c
  }

  function Lowered(s: string): (t: string)
    ensures |t| == |s|
  {
    seq(|s|, i requires 0 <= i < |s| => Lower(s[i]))
  }

  predicate Truthy(v: Option<Value>) {
    match v
    case None => false
    case Some(Text(s)) => Lowered(Strip(s)) in {"true", "1"}
    case Some(List(items)) => items != []
    case Some(Dict(fields)) => fields != map[]
  }

  /** How many instances carry the given InstanceID. */
  function Count(instances: seq<Instance>, id: string): nat {
    if instances == [] then 0
    else (if Lookup(instances[0], "InstanceID") == Some(Text(id)) then 1 else 0) + Count(instances[1..], id)
  }

  method Matches(instances: seq<Instance>, id: string) returns (n: nat)
    ensures n == Count(instances, id)
  {
    n := 0;
    assert instances[0..] == instances;
    for i := 0 to |instances|
      invariant n + Count(instances[i..], id) == Count(instances, id)
    {
      assert instances[i..][1..] == instances[i + 1..];
      if Lookup(instances[i], "InstanceID") == Some(Text(id)) {
        n := n + 1;
      }
    }
  }

  /** Exactly one capabilities instance that advertises the target, and exactly one instance of the source it names. */
  predicate Offered(capabilities: seq<Instance>, sources: seq<Instance>, plan: Plan) {
    && |capabilities| == 1
    && Truthy(Lookup(capabilities[0], CapabilityField(plan.target)))
    && (plan.source.Some? ==> Count(sources, plan.source.value) == 1)
  }

  /** None is a target that may be armed. */
  function Discovered(capabilities: seq<Instance>, sources: seq<Instance>, fate: Request -> Fate, plan: Plan): Option<Reason> {
    if !fate(Capabilities).Answers? then Some(Failed(Capabilities))
    else if |capabilities| != 1 || !Truthy(Lookup(capabilities[0], CapabilityField(plan.target))) then Some(Unsupported)
    else if plan.source.None? then None
    else if !fate(Sources).Answers? then Some(Failed(Sources))
    else if Count(sources, plan.source.value) != 1 then Some(Unsupported)
    else None
  }

  method DiscoverAndValidate(fw: Firmware, plan: Plan) returns (r: Option<Reason>)
    ensures r == Discovered(fw.capabilities, fw.sources, fw.fate, plan)
  {
    var capabilities := fw.Enumerate(Capabilities);
    if capabilities.None? {
      return Some(Failed(Capabilities));
    }
    if |capabilities.value| != 1 || !Truthy(Lookup(capabilities.value[0], CapabilityField(plan.target))) {
      return Some(Unsupported);
    }
    if plan.source.None? {
      return None;
    }
    var sources := fw.Enumerate(Sources);
    if sources.None? {
      return Some(Failed(Sources));
    }
    var matches := Matches(sources.value, plan.source.value);
    return if matches != 1 then Some(Unsupported) else None;
  }

  // --- The effect of the mutations ---

  /** The state after the first `k` of the four mutations. */
  function Prefix(b: Boot, plan: Plan, body: map<string, string>, k: nat): Boot {
    if k == 0 then b
    else if k == 1 then b.(source := None)
    else if k == 2 then Boot(None, b.role, Merge(b.settings, body))
    else if k == 3 then Boot(None, ROLE_NEXT_SINGLE_USE, Merge(b.settings, body))
    else Boot(plan.source, ROLE_NEXT_SINGLE_USE, Merge(b.settings, body))
  }

  function Mutation(k: nat): Request
    requires k < 4
  {
    if k == 0 then ClearOrder else if k == 1 then PutSettings else if k == 2 then SetRole else SetOrder
  }

  /** The mutations up to the first that is not answered. */
  function Answered(fate: Request -> Fate, k: nat): nat
    requires k <= 4
    decreases 4 - k
  {
    if k == 4 || !fate(Mutation(k)).Answers? then k else Answered(fate, k + 1)
  }

  /** The mutations carried out: the answered ones, and one more if its answer alone was lost. */
  function Done(fate: Request -> Fate): nat {
    var n := Answered(fate, 0);
    if n < 4 && fate(Mutation(n)).Loses? then n + 1 else n
  }

  /** The body the Put carries for this plan; it mentions exactly the wanted properties. */
  ghost predicate IsBody(repr: Repr, body: map<string, string>, settings: Settings, plan: Plan) {
    forall key :: (if key in body then Some(body[key]) else None) ==
                  (var w := Wanted(ReadInstance(settings), plan, key); if w.Some? then Some(Coerce(repr, w.value)) else None)
  }

  lemma BodyHasNoReadOnlyField(repr: Repr, body: map<string, string>, settings: Settings, plan: Plan)
    requires IsBody(repr, body, settings, plan)
    ensures body.Keys * READONLY_BOOT_FIELDS == {}
  {
    hide Fixed, ReadInstance, Coerce;
    forall key | key in READONLY_BOOT_FIELDS
      ensures key !in body
    {
      ListsAreApart(plan, key);
      assert Wanted(ReadInstance(settings), plan, key) == None;
    }
  }

  lemma CarriedBody(repr: Repr, mutated: map<string, Property>, settings: Settings, plan: Plan)
    requires Carries(mutated, ReadInstance(settings), plan)
    ensures IsBody(repr, Body(repr, mutated), settings, plan)
  {
    hide Wanted, ReadInstance, Coerce;
    var body := Body(repr, mutated);
    forall key
      ensures (if key in body then Some(body[key]) else None) ==
              (var w := Wanted(ReadInstance(settings), plan, key); if w.Some? then Some(Coerce(repr, w.value)) else None)
    {
      assert (if key in mutated then Some(mutated[key]) else None) == Wanted(ReadInstance(settings), plan, key);
    }
  }

  /**
    The five steps in their order. On every path the firmware holds the effect
    of an exact prefix of the four mutations: none of them without a token, for
    an unknown target, when discovery or the first read fails, or in check
    mode; otherwise those carried out up to the first that was not answered.
    */
  method ArmOneTimeBoot(fw: Firmware, target: string, token: Option<string>, checkMode: bool, repr: Repr)
    returns (r: Outcome, ghost body: map<string, string>)
    modifies fw
    ensures var plan := BuildBootPlan(target);
            var b := old(fw.State());
            if token == None || token == Some("") then r == Refused(NoToken) && fw.State() == b
            else if plan.None? then r == Refused(UnknownTarget) && fw.State() == b
            else
              var d := Discovered(fw.capabilities, fw.sources, fw.fate, plan.value);
              if d.Some? then r == Refused(d.value) && fw.State() == b
              else if !fw.fate(ReadBefore).Answers? then r == Refused(Failed(ReadBefore)) && fw.State() == b
              else if checkMode then r == DryRun(ReadInstance(b.settings)) && fw.State() == b
              else
                && IsBody(repr, body, b.settings, plan.value)
                && fw.State() == Prefix(b, plan.value, body, Done(fw.fate))
                && r == (var n := Answered(fw.fate, 0);
                         if n < 4 then Refused(Failed(Mutation(n)))
                         else if !fw.fate(ReadAfter).Answers? then Refused(Failed(ReadAfter))
                         else Armed(ReadInstance(b.settings), ReadInstance(fw.settings)))
  {
    hide ReadInstance, Wanted, Coerce, Discovered, BuildBootPlan;
    body := map[];
    if token == None || token == Some("") {
      return Refused(NoToken), body;
    }
    var plan := BuildBootPlan(target);
    if plan.None? {
      return Refused(UnknownTarget), body;
    }
    var d := DiscoverAndValidate(fw, plan.value);
    if d.Some? {
      return Refused(d.value), body;
    }
    var previous := fw.Get(ReadBefore);
    if previous.None? {
      return Refused(Failed(ReadBefore)), body;
    }
    var mutated := BuildPutProperties(previous.value, plan.value);
    if checkMode {
      return DryRun(previous.value), body;
    }
    var texts := Body(repr, mutated);
    body := texts;
    CarriedBody(repr, mutated, fw.settings, plan.value);
    BodyHasNoReadOnlyField(repr, body, fw.settings, plan.value);
    var ok := fw.ChangeBootOrder(ClearOrder, None);
    if !ok {
      return Refused(Failed(ClearOrder)), body;
    }
    ok := fw.Put(texts);
    if !ok {
      return Refused(Failed(PutSettings)), body;
    }
    ok := fw.SetBootConfigRole(Some(ROLE_NEXT_SINGLE_USE));
    if !ok {
      return Refused(Failed(SetRole)), body;
    }
    ok := fw.ChangeBootOrder(SetOrder, plan.value.source);
    if !ok {
      return Refused(Failed(SetOrder)), body;
    }
    var observed := fw.Get(ReadAfter);
    if observed.None? {
      return Refused(Failed(ReadAfter)), body;
    }
    return Armed(previous.value, observed.value), body;
  }

  // --- What holds of the firmware afterwards ---

  /** Discovery lets a target through exactly when firmware answers and offers it. */
  lemma DiscoveredIff(capabilities: seq<Instance>, sources: seq<Instance>, fate: Request -> Fate, plan: Plan)
    ensures Discovered(capabilities, sources, fate, plan) == None <==>
            && fate(Capabilities).Answers? && (plan.source.Some? ==> fate(Sources).Answers?)
            && Offered(capabilities, sources, plan)
  {
  }

  function Says(settings: Settings, key: string): seq<string> {
    if key in settings then settings[key] else []
  }

  /** Booting from redirected media and from a named source at once. */
  predicate BootsBoth(b: Boot) {
    Says(b.settings, "UseIDER") == ["true"] && b.source.Some?
  }

  /** From the first mutation on, at no point is redirected media enabled together with a named source. */
  lemma NeverBoth(repr: Repr, b: Boot, target: string, body: map<string, string>, k: nat)
    requires BuildBootPlan(target).Some? && IsBody(repr, body, b.settings, BuildBootPlan(target).value)
    requires k == 0 ==> !BootsBoth(b)
    ensures !BootsBoth(Prefix(b, BuildBootPlan(target).value, body, k))
  {
    hide ReadInstance, BuildBootPlan, Fixed, Wanted;
    PlanOf(target);
    if k >= 4 {
      PlannedSettings(repr, b, target, body, 4);
    }
  }

  /** Every fixed setting, once the Put is done. */
  lemma PlannedSettings(repr: Repr, b: Boot, target: string, body: map<string, string>, k: nat)
    requires BuildBootPlan(target).Some? && IsBody(repr, body, b.settings, BuildBootPlan(target).value) && k >= 2
    ensures var plan := BuildBootPlan(target).value;
            var after := Prefix(b, plan, body, k).settings;
            && Says(after, "UseIDER") == [if plan.useIder then "true" else "false"]
            && Says(after, "UseSOL") == Says(after, "UseIDER")
            && Says(after, "IDERBootDevice") == [if target == "ider_cdrom" then "1" else "0"]
            && Says(after, "BIOSSetup") == [if target == "bios" then "true" else "false"]
            && forall key :: key in Fixed(plan) ==> Says(after, key) == [Coerce(repr, Fixed(plan)[key])]
  {
    hide ReadInstance, Fixed, BuildBootPlan;
    var plan := BuildBootPlan(target).value;
    PlanOf(target);
    FixedValues(plan);
    forall key | key in Fixed(plan)
      ensures key in body && body[key] == Coerce(repr, Fixed(plan)[key])
    {
      assert (if key in body then Some(body[key]) else None) == Some(Coerce(repr, Fixed(plan)[key]));
    }
  }

  lemma PlanOf(target: string)
    requires BuildBootPlan(target).Some?
    ensures var plan := BuildBootPlan(target).value;
            && (plan.useIder ==> plan.source == None)
            && plan.iderBootDevice == (if target == "ider_cdrom" then 1 else 0)
            && plan.biosSetup == (target == "bios")
  {
  }

  lemma FixedValues(plan: Plan)
    ensures var f := Fixed(plan);
            && "UseIDER" in f && f["UseIDER"] == Flag(plan.useIder)
            && "UseSOL" in f && f["UseSOL"] == Flag(plan.useIder)
            && "IDERBootDevice" in f && f["IDERBootDevice"] == Number(plan.iderBootDevice)
            && "BIOSSetup" in f && f["BIOSSetup"] == Flag(plan.biosSetup)
  {
  }

  /** A setting that arming is not about: neither planned, nor zeroed, nor erased. */
  predicate Unrelated(plan: Plan, key: string) {
    key !in Fixed(plan) && key !in OPTIONAL_ERASE_FIELDS && key !in ZERO_IF_PRESENT_FIELDS
  }

  /**
    An unrelated setting keeps its value exactly when it is read-only, absent,
    or a single text with no white space at its ends; a list is sent back as
    one text and no longer is a list.
    */
  lemma UnrelatedIff(repr: Repr, b: Boot, plan: Plan, body: map<string, string>, k: nat, key: string)
    requires IsBody(repr, body, b.settings, plan) && Unrelated(plan, key) && k >= 2
    ensures Says(Prefix(b, plan, body, k).settings, key) == Says(b.settings, key) <==>
            || key in READONLY_BOOT_FIELDS
            || Says(b.settings, key) == []
            || (|Says(b.settings, key)| == 1 && Trimmed(Says(b.settings, key)[0]))
  {
    hide Fixed;
    var was := Says(b.settings, key);
    var read := ReadInstance(b.settings);
    var wanted := Wanted(read, plan, key);
    assert (if key in body then Some(body[key]) else None) == if wanted.Some? then Some(Coerce(repr, wanted.value)) else None;
    if key !in READONLY_BOOT_FIELDS && was != [] {
      assert wanted == Some(AsRead(Collapse(Stripped(was)).value));
      if |was| == 1 {
        TrimmedIsFixed(was[0]);
        assert body[key] == Strip(was[0]);
        assert was == [was[0]];
      }
    }
  }

  /** Armed: the one-shot role, the planned source, and everything read back says so. */
  lemma ArmedState(repr: Repr, b: Boot, target: string, body: map<string, string>)
    requires BuildBootPlan(target).Some? && IsBody(repr, body, b.settings, BuildBootPlan(target).value)
    ensures var plan := BuildBootPlan(target).value;
            var after := Prefix(b, plan, body, 4);
            && after.role == ROLE_NEXT_SINGLE_USE
            && after.source == plan.source
            && Lookup(ReadInstance(after.settings), "UseIDER") == Some(Text(if plan.useIder then "true" else "false"))
            && (plan.useIder ==> after.source == None)
  {
    hide ReadInstance, BuildBootPlan, Fixed, Wanted, Strip;
    PlanOf(target);
    PlannedSettings(repr, b, target, body, 4);
    ReadOne(Prefix(b, BuildBootPlan(target).value, body, 4).settings, "UseIDER");
    TrimmedIsFixed("true");
    TrimmedIsFixed("false");
  }

  lemma ReadOne(settings: Settings, key: string)
    ensures |Says(settings, key)| == 1 ==> Lookup(ReadInstance(settings), key) == Some(Text(Strip(Says(settings, key)[0])))
  {
  }

  /** Clearing first matters: with the Put before it, a machine whose order names a source would hold both. */
  lemma ClearFirst(repr: Repr, b: Boot, body: map<string, string>)
    requires IsBody(repr, body, b.settings, BuildBootPlan("ider_cdrom").value) && b.source.Some?
    ensures BootsBoth(b.(settings := Merge(b.settings, body)))
  {
    hide ReadInstance, Fixed, Wanted;
    PlannedSettings(repr, b, "ider_cdrom", body, 2);
  }
}
