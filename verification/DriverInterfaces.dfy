/**
 Hardware interfaces in `ironic/common/driver_factory.py`: which are enabled, which is the
 default, and the pass that checks a node and fills in what is missing.

 The entry points of one interface type have distinct names; loading one gives its class.
 */
module DriverInterfaces {
  import opened Wrappers
  import opened Strings

  type Class = nat

  datatype Extension = Extension(name: string, cls: Class)

  datatype HardwareType = HardwareType(supported: map<string, seq<Class>>, fake: bool)
  {
    function Supported(iface: string): seq<Class> {
      if iface in supported then supported[iface] else []
    }
  }

  datatype Error =
    | InterfaceNotFoundInEntrypoint
    | IncompatibleInterface
    | NoValidDefaultForInterface
    | DriverNotFound
    | UnknownSupported

  predicate UniqueNames(exts: seq<Extension>) {
    forall i, j :: 0 <= i < j < |exts| ==> exts[i].name != exts[j].name
  }

  // ---------------------------------------------------------------------------
  // Enabled interfaces
  // ---------------------------------------------------------------------------

  function NonEmpty(names: seq<string>): seq<string> {
    if names == [] then []
    else NonEmpty(names[..|names| - 1]) + if names[|names| - 1] == "" then [] else [names[|names| - 1]]
  }

  /** The dictionary from class to name; a later entry point replaces an earlier one. */
  function ClassNames(exts: seq<Extension>): map<Class, string> {
    if exts == [] then map[]
    else ClassNames(exts[..|exts| - 1])[exts[|exts| - 1].cls := exts[|exts| - 1].name]
  }

  /** The name of the first implementation a hardware type supports. */
  function FirstName(available: seq<Extension>, iface: string, hw: HardwareType): Option<string> {
    var names := ClassNames(available);
    var supported := hw.Supported(iface);
    if supported == [] || supported[0] !in names then None else Some(names[supported[0]])
  }

  predicate AllNamed(available: seq<Extension>, iface: string, hws: seq<HardwareType>) {
    forall i :: 0 <= i < |hws| ==> FirstName(available, iface, hws[i]).Some?
  }

  function FirstNames(available: seq<Extension>, iface: string, hws: seq<HardwareType>): seq<string>
    requires AllNamed(available, iface, hws)
  {
    seq(|hws|, i requires 0 <= i < |hws| => FirstName(available, iface, hws[i]).value)
  }

  /** The list calculated from the first `n` hardware types. */
  predicate Calculated(available: seq<Extension>, iface: string, hws: seq<HardwareType>, n: nat, list: seq<string>) {
    n <= |hws| && AllNamed(available, iface, hws[..n]) && list == Distinct(FirstNames(available, iface, hws[..n]))
  }

  lemma CalculatedStep(available: seq<Extension>, iface: string, hws: seq<HardwareType>, n: nat, list: seq<string>)
    requires n < |hws| && Calculated(available, iface, hws, n, list) && FirstName(available, iface, hws[n]).Some?
    ensures var name := FirstName(available, iface, hws[n]).value;
            Calculated(available, iface, hws, n + 1, if name in list then list else list + [name])
  {
    var name := FirstName(available, iface, hws[n]).value;
    assert hws[..n + 1] == hws[..n] + [hws[n]];
    assert FirstNames(available, iface, hws[..n + 1]) == FirstNames(available, iface, hws[..n]) + [name];
    DistinctStep(FirstNames(available, iface, hws[..n]), name);
  }

  lemma CalculatedEnds(available: seq<Extension>, iface: string, hws: seq<HardwareType>, list: seq<string>)
    requires Calculated(available, iface, hws, |hws|, list)
    ensures AllNamed(available, iface, hws) && list == Distinct(FirstNames(available, iface, hws))
  {
    assert hws[..|hws|] == hws;
  }

  lemma OneUnnamed(available: seq<Extension>, iface: string, hws: seq<HardwareType>, n: nat)
    requires n < |hws| && FirstName(available, iface, hws[n]).None?
    ensures !AllNamed(available, iface, hws)
  {
  }

  class InterfaceFactory {
    const iface: string
    const available: seq<Extension>
    var enabledDriverList: seq<string>

    constructor (iface: string, available: seq<Extension>)
      ensures this.iface == iface && this.available == available && enabledDriverList == []
    {
      this.iface, this.available, enabledDriverList := iface, available, [];
    }

    /** `BaseDriverFactory._set_enabled_drivers`: the option without repetitions and empty names. */
    method SetFromOption(option: seq<string>)
      modifies this
      ensures enabledDriverList == NonEmpty(Distinct(option))
    {
      var counter := Distinct(option);
      enabledDriverList := [];
      for n := 0 to |counter|
        invariant enabledDriverList == NonEmpty(counter[..n])
      {
        assert counter[..n + 1][..n] == counter[..n];
        if counter[n] == "" {
          continue;
        }
        enabledDriverList := enabledDriverList + [counter[n]];
      }
      assert counter[..|counter|] == counter;
    }

    /** `InterfaceFactory._set_enabled_drivers`: failing an option, the first choice of each hardware type. */
    method SetEnabledDrivers(option: seq<string>, hws: seq<HardwareType>) returns (r: Result<(), Error>)
      modifies this
      ensures NonEmpty(Distinct(option)) != [] ==> r == Ok(()) && enabledDriverList == NonEmpty(Distinct(option))
      ensures NonEmpty(Distinct(option)) == [] ==>
                && r == (if AllNamed(available, iface, hws) then Ok(()) else Err(UnknownSupported))
                && (r == Ok(()) ==> enabledDriverList == Distinct(FirstNames(available, iface, hws)))
    {
      SetFromOption(option);
      if enabledDriverList != [] {
        return Ok(());
      }
      var clsNames := ClassNames(available);
      for n := 0 to |hws|
        invariant Calculated(available, iface, hws, n, enabledDriverList)
      {
        var supported := hws[n].Supported(iface);
        if supported == [] || supported[0] !in clsNames {
          OneUnnamed(available, iface, hws, n);
          return Err(UnknownSupported);
        }
        var name := clsNames[supported[0]];
        CalculatedStep(available, iface, hws, n, enabledDriverList);
        if name !in enabledDriverList {
          enabledDriverList := enabledDriverList + [name];
        }
      }
      CalculatedEnds(available, iface, hws, enabledDriverList);
      return Ok(());
    }
  }

  /** What the extension manager loads: the entry points with an enabled name. */
  function Loaded(available: seq<Extension>, enabled: seq<string>): seq<Extension> {
    if available == [] then []
    else
      var last := available[|available| - 1];
      Loaded(available[..|available| - 1], enabled) + if last.name in enabled then [last] else []
  }

  // ---------------------------------------------------------------------------
  // One interface
  // ---------------------------------------------------------------------------

  /** The loaded entry points and the configured default of each interface type. */
  datatype Env = Env(ifaces: seq<string>, loaded: map<string, seq<Extension>>, defaults: map<string, string>)
  {
    function Loaders(iface: string): seq<Extension> {
      if iface in loaded then loaded[iface] else []
    }

    predicate Valid() {
      && (forall i, j :: 0 <= i < j < |ifaces| ==> ifaces[i] != ifaces[j])
      && forall iface :: iface in loaded ==> UniqueNames(loaded[iface])
    }
  }

  function Find(exts: seq<Extension>, name: string): Option<Class> {
    if exts == [] then None
    else if exts[0].name == name then Some(exts[0].cls)
    else Find(exts[1..], name)
  }

  function GetInterface(env: Env, hw: HardwareType, iface: string, name: string): Result<Class, Error> {
    var impl := Find(env.Loaders(iface), name);
    if impl.None? then Err(InterfaceNotFoundInEntrypoint)
    else if hw.fake || impl.value in hw.Supported(iface) then Ok(impl.value)
    else Err(IncompatibleInterface)
  }

  function FirstEnabled(supported: seq<Class>, enabled: map<Class, string>): Option<string> {
    if supported == [] then None
    else if supported[0] in enabled then Some(enabled[supported[0]])
    else FirstEnabled(supported[1..], enabled)
  }

  function DefaultInterface(env: Env, hw: HardwareType, iface: string): Result<string, Error> {
    if iface in env.defaults then
      match GetInterface(env, hw, iface, env.defaults[iface])
      case Ok(_) => Ok(env.defaults[iface])
      case Err(IncompatibleInterface) => Err(NoValidDefaultForInterface)
      case Err(e) => Err(e)
    else
      match FirstEnabled(hw.Supported(iface), ClassNames(env.Loaders(iface)))
      case None => Err(NoValidDefaultForInterface)
      case Some(name) => Ok(name)
  }

  lemma {:induction false} FindUnique(exts: seq<Extension>, i: nat)
    requires UniqueNames(exts) && i < |exts|
    ensures Find(exts, exts[i].name) == Some(exts[i].cls)
  {
    if i == 0 {
    } else {
      assert exts[1..][i - 1] == exts[i];
      FindUnique(exts[1..], i - 1);
    }
  }

  lemma {:induction false} ClassNamesFrom(exts: seq<Extension>, cls: Class)
    ensures cls in ClassNames(exts) ==> Extension(ClassNames(exts)[cls], cls) in exts
    ensures cls in ClassNames(exts) <==> exists e :: e in exts && e.cls == cls
  {
    if exts == [] {
    } else {
      assert exts == exts[..|exts| - 1] + [exts[|exts| - 1]];
      ClassNamesFrom(exts[..|exts| - 1], cls);
    }
  }

  lemma {:induction false} FirstEnabledIsSupported(supported: seq<Class>, enabled: map<Class, string>)
    ensures FirstEnabled(supported, enabled).Some? ==>
              exists i :: 0 <= i < |supported| && supported[i] in enabled
                && enabled[supported[i]] == FirstEnabled(supported, enabled).value
                && forall j :: 0 <= j < i ==> supported[j] !in enabled
    ensures FirstEnabled(supported, enabled).None? ==> forall c :: c in supported ==> c !in enabled
  {
    if supported == [] || supported[0] in enabled {
    } else {
      FirstEnabledIsSupported(supported[1..], enabled);
      if FirstEnabled(supported, enabled).Some? {
        var i :| 0 <= i < |supported[1..]| && supported[1..][i] in enabled
          && enabled[supported[1..][i]] == FirstEnabled(supported, enabled).value
          && forall j :: 0 <= j < i ==> supported[1..][j] !in enabled;
        assert supported[i + 1] == supported[1..][i];
        assert forall j :: 0 < j < i + 1 ==> supported[j] == supported[1..][j - 1];
      }
    }
  }

  // ---------------------------------------------------------------------------
  // What the look-ups mean
  // ---------------------------------------------------------------------------

  function LoadedOf(env: Env, iface: string): seq<Extension> {
    if iface in env.loaded then env.loaded[iface] else []
  }

  function SupportedOf(hw: HardwareType, iface: string): seq<Class> {
    if iface in hw.supported then hw.supported[iface] else []
  }

  lemma {:induction false} FindNone(exts: seq<Extension>, name: string)
    ensures Find(exts, name).None? <==> forall i :: 0 <= i < |exts| ==> exts[i].name != name
    ensures Find(exts, name).Some? ==> Extension(name, Find(exts, name).value) in exts
  {
    if exts == [] {
    } else {
      FindNone(exts[1..], name);
      assert forall i :: 0 <= i < |exts[1..]| ==> exts[1..][i] == exts[i + 1];
      assert forall e :: e in exts[1..] ==> e in exts;
    }
  }

  /** The entry point called `name` is loaded, for class `cls`. */
  predicate IsLoaded(env: Env, iface: string, name: string, cls: Class) {
    exists i :: 0 <= i < |LoadedOf(env, iface)| && LoadedOf(env, iface)[i] == Extension(name, cls)
  }

  /** The one loaded entry point with the name decides, by whether its class is supported. */
  lemma GetInterfaceExactly(env: Env, hw: HardwareType, iface: string, name: string)
    requires env.Valid()
    ensures forall cls: Class ::
              GetInterface(env, hw, iface, name) == Ok(cls) <==>
                IsLoaded(env, iface, name, cls) && (hw.fake || cls in SupportedOf(hw, iface))
    ensures GetInterface(env, hw, iface, name) == Err(IncompatibleInterface) <==>
              exists cls: Class :: IsLoaded(env, iface, name, cls) && !hw.fake && cls !in SupportedOf(hw, iface)
    ensures GetInterface(env, hw, iface, name) == Err(InterfaceNotFoundInEntrypoint) <==>
              forall cls: Class :: !IsLoaded(env, iface, name, cls)
  {
    var exts := LoadedOf(env, iface);
    FindNone(exts, name);
    forall cls: Class | IsLoaded(env, iface, name, cls) ensures Find(exts, name) == Some(cls) {
      var i :| 0 <= i < |exts| && exts[i] == Extension(name, cls);
      FindUnique(exts, i);
    }
    if Find(exts, name).Some? {
      assert IsLoaded(env, iface, name, Find(exts, name).value);
    }
  }

  /** The last of the entry points for a class. */
  predicate LastFor(exts: seq<Extension>, k: int, cls: Class) {
    0 <= k < |exts| && exts[k].cls == cls && forall j :: k < j < |exts| ==> exts[j].cls != cls
  }

  lemma {:induction false} ClassNamesExactly(exts: seq<Extension>, cls: Class)
    ensures cls in ClassNames(exts) ==>
              exists k :: LastFor(exts, k, cls) && ClassNames(exts)[cls] == exts[k].name
    ensures cls !in ClassNames(exts) ==> forall k :: 0 <= k < |exts| ==> exts[k].cls != cls
  {
    if exts == [] {
    } else {
      var front := exts[..|exts| - 1];
      ClassNamesExactly(front, cls);
      if exts[|exts| - 1].cls == cls {
        assert LastFor(exts, |exts| - 1, cls);
      } else if cls in ClassNames(front) {
        var k :| LastFor(front, k, cls) && ClassNames(front)[cls] == front[k].name;
        assert LastFor(exts, k, cls);
      }
    }
  }

  lemma LastForIsOne(exts: seq<Extension>, i: int, j: int, cls: Class)
    requires LastFor(exts, i, cls) && LastFor(exts, j, cls)
    ensures i == j
  {
  }

  lemma FirstNameExactly(available: seq<Extension>, iface: string, hw: HardwareType, name: string)
    ensures FirstName(available, iface, hw) == Some(name) <==>
              && SupportedOf(hw, iface) != []
              && exists k :: LastFor(available, k, SupportedOf(hw, iface)[0]) && available[k].name == name
  {
    if SupportedOf(hw, iface) != [] {
      var cls := SupportedOf(hw, iface)[0];
      ClassNamesExactly(available, cls);
      forall i, j | LastFor(available, i, cls) && LastFor(available, j, cls) ensures i == j {
        LastForIsOne(available, i, j, cls);
      }
    }
  }

  predicate HasLoaded(exts: seq<Extension>, cls: Class) {
    exists k :: 0 <= k < |exts| && exts[k].cls == cls
  }

  /** `name` stands for the first supported class that is loaded. */
  ghost predicate FirstChoice(exts: seq<Extension>, supported: seq<Class>, name: string) {
    exists i, k ::
      && 0 <= i < |supported| && LastFor(exts, k, supported[i]) && exts[k].name == name
      && forall j :: 0 <= j < i ==> !HasLoaded(exts, supported[j])
  }

  lemma {:induction false} FirstEnabledExactly(exts: seq<Extension>, supported: seq<Class>, name: string)
    ensures FirstEnabled(supported, ClassNames(exts)) == Some(name) <==> FirstChoice(exts, supported, name)
  {
    var enabled := ClassNames(exts);
    FirstEnabledIsSupported(supported, enabled);
    forall cls ensures cls in enabled <==> HasLoaded(exts, cls) {
      ClassNamesExactly(exts, cls);
    }
    if FirstEnabled(supported, enabled) == Some(name) {
      var i :| 0 <= i < |supported| && supported[i] in enabled && enabled[supported[i]] == name
        && forall j :: 0 <= j < i ==> supported[j] !in enabled;
      ClassNamesExactly(exts, supported[i]);
      var k :| LastFor(exts, k, supported[i]) && exts[k].name == name;
    }
    if FirstChoice(exts, supported, name) {
      var i, k :| 0 <= i < |supported| && LastFor(exts, k, supported[i]) && exts[k].name == name
        && forall j :: 0 <= j < i ==> !HasLoaded(exts, supported[j]);
      assert HasLoaded(exts, supported[i]);
      FirstEnabledAt(supported, enabled, i);
      ClassNamesExactly(exts, supported[i]);
      var k' :| LastFor(exts, k', supported[i]) && enabled[supported[i]] == exts[k'].name;
      LastForIsOne(exts, k, k', supported[i]);
    }
  }

  lemma {:induction false} FirstEnabledAt(supported: seq<Class>, enabled: map<Class, string>, i: nat)
    requires i < |supported| && supported[i] in enabled && forall j :: 0 <= j < i ==> supported[j] !in enabled
    ensures FirstEnabled(supported, enabled) == Some(enabled[supported[i]])
  {
    if i == 0 {
    } else {
      assert forall j :: 0 <= j < i - 1 ==> supported[1..][j] == supported[j + 1];
      FirstEnabledAt(supported[1..], enabled, i - 1);
    }
  }

  /** A configured default counts only if it can be used; otherwise it is the first choice of the hardware type. */
  lemma DefaultExactly(env: Env, hw: HardwareType, iface: string)
    requires env.Valid()
    ensures iface in env.defaults ==>
              var name := env.defaults[iface];
              && (DefaultInterface(env, hw, iface) == Ok(name) <==>
                    exists cls: Class :: IsLoaded(env, iface, name, cls) && (hw.fake || cls in SupportedOf(hw, iface)))
              && (DefaultInterface(env, hw, iface) == Err(NoValidDefaultForInterface) <==>
                    exists cls: Class :: IsLoaded(env, iface, name, cls) && !hw.fake && cls !in SupportedOf(hw, iface))
              && (DefaultInterface(env, hw, iface) == Err(InterfaceNotFoundInEntrypoint) <==>
                    forall cls: Class :: !IsLoaded(env, iface, name, cls))
    ensures iface !in env.defaults ==>
              && (forall name ::
                    DefaultInterface(env, hw, iface) == Ok(name) <==>
                      FirstChoice(LoadedOf(env, iface), SupportedOf(hw, iface), name))
              && (DefaultInterface(env, hw, iface).Err? ==>
                    DefaultInterface(env, hw, iface) == Err(NoValidDefaultForInterface))
  {
    if iface in env.defaults {
      GetInterfaceExactly(env, hw, iface, env.defaults[iface]);
    } else {
      forall name {
        FirstEnabledExactly(LoadedOf(env, iface), SupportedOf(hw, iface), name);
      }
    }
  }

  lemma {:induction false} NonEmptyOrder(names: seq<string>, a: nat, b: nat) returns (i: nat, j: nat)
    requires a < b < |NonEmpty(names)|
    ensures i < j < |names| && names[i] == NonEmpty(names)[a] && names[j] == NonEmpty(names)[b]
  {
    var front := NonEmpty(names[..|names| - 1]);
    if b < |front| {
      i, j := NonEmptyOrder(names[..|names| - 1], a, b);
    } else {
      j := |names| - 1;
      NonEmptyMembers(names[..|names| - 1]);
      assert front[a] in front;
      i :| 0 <= i < |names| - 1 && names[i] == front[a];
    }
  }

  lemma {:induction false} NonEmptyMembers(names: seq<string>)
    ensures forall n :: n in NonEmpty(names) <==> n in names && n != ""
  {
    if names == [] {
    } else {
      NonEmptyMembers(names[..|names| - 1]);
      assert names == names[..|names| - 1] + [names[|names| - 1]];
    }
  }

  /** The enabled list from an option: its names but the empty one, each once, in the order they first come up. */
  lemma OptionList(option: seq<string>, a: nat, b: nat, i: nat, j: nat)
    ensures forall n :: n in NonEmpty(Distinct(option)) <==> n in option && n != ""
    ensures a < b < |NonEmpty(Distinct(option))| ==> NonEmpty(Distinct(option))[a] != NonEmpty(Distinct(option))[b]
    ensures a < b < |NonEmpty(Distinct(option))|
            && FirstAt(option, i, NonEmpty(Distinct(option))[a])
            && FirstAt(option, j, NonEmpty(Distinct(option))[b]) ==>
              i < j
  {
    var list := NonEmpty(Distinct(option));
    NonEmptyMembers(Distinct(option));
    if a < b < |list| {
      var a', b' := NonEmptyOrder(Distinct(option), a, b);
      if FirstAt(option, i, list[a]) && FirstAt(option, j, list[b]) {
        DistinctInOrder(option, a', b', i, j);
      }
    }
  }

  /** A default can always be used: it passes the very check that given values have to pass. */
  lemma DefaultPasses(env: Env, hw: HardwareType, iface: string)
    requires env.Valid() && DefaultInterface(env, hw, iface).Ok?
    ensures GetInterface(env, hw, iface, DefaultInterface(env, hw, iface).value).Ok?
  {
    if iface !in env.defaults {
      var exts := env.Loaders(iface);
      FirstEnabledIsSupported(hw.Supported(iface), ClassNames(exts));
      var i :| 0 <= i < |hw.Supported(iface)| && hw.Supported(iface)[i] in ClassNames(exts)
        && ClassNames(exts)[hw.Supported(iface)[i]] == DefaultInterface(env, hw, iface).value;
      var cls := hw.Supported(iface)[i];
      ClassNamesFrom(exts, cls);
      var k :| 0 <= k < |exts| && exts[k] == Extension(ClassNames(exts)[cls], cls);
      FindUnique(exts, k);
    }
  }

  lemma {:induction false} LoadedMembers(available: seq<Extension>, enabled: seq<string>)
    ensures forall e :: e in Loaded(available, enabled) <==> e in available && e.name in enabled
  {
    if available == [] {
    } else {
      assert available == available[..|available| - 1] + [available[|available| - 1]];
      LoadedMembers(available[..|available| - 1], enabled);
    }
  }

  lemma SameName(exts: seq<Extension>, a: Extension, b: Extension)
    requires UniqueNames(exts) && a in exts && b in exts && a.name == b.name
    ensures a == b
  {
  }

  /**
   With interfaces enabled by calculation and no default configured, every enabled hardware
   type gets its own first choice.
   */
  lemma CalculatedDefaults(env: Env, available: seq<Extension>, iface: string, hws: seq<HardwareType>, h: nat)
    requires UniqueNames(available) && AllNamed(available, iface, hws) && h < |hws|
    requires iface in env.loaded && iface !in env.defaults
    requires env.loaded[iface] == Loaded(available, Distinct(FirstNames(available, iface, hws)))
    ensures DefaultInterface(env, hws[h], iface) == Ok(FirstName(available, iface, hws[h]).value)
  {
    var names := FirstNames(available, iface, hws);
    var enabled := Distinct(names);
    var exts := env.loaded[iface];
    var cls := hws[h].Supported(iface)[0];
    var name := FirstName(available, iface, hws[h]).value;
    LoadedMembers(available, enabled);
    ClassNamesFrom(available, cls);
    ClassNamesFrom(exts, cls);
    assert names[h] == name;
    assert Extension(name, cls) in exts;
    var other := Extension(ClassNames(exts)[cls], cls);
    var g :| 0 <= g < |names| && names[g] == other.name;
    var cls' := hws[g].Supported(iface)[0];
    ClassNamesFrom(available, cls');
    SameName(available, other, Extension(names[g], cls'));
  }

  // ---------------------------------------------------------------------------
  // Checking and updating a node
  // ---------------------------------------------------------------------------

  /** Interface fields by interface type; an absent key and `None` both mean unset. */
  type Fields = map<string, Option<string>>

  function ValueOf(fields: Fields, iface: string): Option<string> {
    if iface in fields then fields[iface] else None
  }

  predicate Passes(env: Env, hw: HardwareType, iface: string, value: Option<string>) {
    value.Some? ==> GetInterface(env, hw, iface, value.value).Ok?
  }

  /** Neither the instance nor the node says which implementation to use. */
  predicate Missing(fields: Fields, info: Fields, iface: string) {
    ValueOf(info, iface).None? && ValueOf(fields, iface).None?
  }

  /** The pass gets over this interface type without an error. */
  predicate Clears(env: Env, hw: HardwareType, fields: Fields, info: Fields, iface: string) {
    && Passes(env, hw, iface, ValueOf(info, iface)) && Passes(env, hw, iface, ValueOf(fields, iface))
    && (Missing(fields, info, iface) ==> DefaultInterface(env, hw, iface).Ok?)
  }

  /** The error with which the pass stops at this interface type. */
  predicate StopsWith(env: Env, hw: HardwareType, fields: Fields, info: Fields, iface: string, e: Error) {
    var override, value := ValueOf(info, iface), ValueOf(fields, iface);
    || (override.Some? && GetInterface(env, hw, iface, override.value) == Err(e))
    || (Passes(env, hw, iface, override) && value.Some? && GetInterface(env, hw, iface, value.value) == Err(e))
    || (Missing(fields, info, iface) && DefaultInterface(env, hw, iface) == Err(e))
  }

  /** The field of `f` once the pass is through `done`: its default if it was missing, otherwise as before. */
  predicate FieldUpdated(env: Env, hw: HardwareType, before: Fields, info: Fields, done: seq<string>,
                         fields: Fields, f: string)
  {
    if f in done && Missing(before, info, f) then
      var d := DefaultInterface(env, hw, f);
      d.Ok? && f in fields && fields[f] == Some(d.value)
    else
      (f in fields <==> f in before) && (f in before ==> fields[f] == before[f])
  }

  /** The fields after the pass has cleared the first `n` interface types. */
  ghost predicate Updated(env: Env, hw: HardwareType, before: Fields, info: Fields, n: nat, fields: Fields) {
    && n <= |env.ifaces|
    && (forall i :: 0 <= i < n ==> Clears(env, hw, before, info, env.ifaces[i]))
    && (forall f :: FieldUpdated(env, hw, before, info, env.ifaces[..n], fields, f))
  }

  class Node {
    const driver: string
    const instanceInfo: Fields
    var fields: Fields

    constructor (driver: string, instanceInfo: Fields, fields: Fields)
      ensures this.driver == driver && this.instanceInfo == instanceInfo && this.fields == fields
    {
      this.driver, this.instanceInfo, this.fields := driver, instanceInfo, fields;
    }
  }

  lemma NotYetTouched(env: Env, hw: HardwareType, before: Fields, info: Fields, n: nat, fields: Fields)
    requires env.Valid() && Updated(env, hw, before, info, n, fields) && n < |env.ifaces|
    ensures env.ifaces[n] !in env.ifaces[..n] && ValueOf(fields, env.ifaces[n]) == ValueOf(before, env.ifaces[n])
  {
    assert env.ifaces[n] !in env.ifaces[..n];
    assert FieldUpdated(env, hw, before, info, env.ifaces[..n], fields, env.ifaces[n]);
  }

  /** One interface type more, seen from one field. */
  lemma FieldStep(env: Env, hw: HardwareType, before: Fields, info: Fields, done: seq<string>, iface: string,
                  fields: Fields, fields': Fields, f: string)
    requires FieldUpdated(env, hw, before, info, done, fields, f) && iface !in done
    requires Missing(before, info, iface) ==>
               var d := DefaultInterface(env, hw, iface); d.Ok? && fields' == fields[iface := Some(d.value)]
    requires !Missing(before, info, iface) ==> fields' == fields
    ensures FieldUpdated(env, hw, before, info, done + [iface], fields', f)
  {
    assert f in done + [iface] <==> f in done || f == iface;
    if f != iface {
      assert f in fields' <==> f in fields;
    }
  }

  lemma UpdatedStep(env: Env, hw: HardwareType, before: Fields, info: Fields, n: nat, fields: Fields, fields': Fields)
    requires env.Valid() && Updated(env, hw, before, info, n, fields) && n < |env.ifaces|
    requires Clears(env, hw, before, info, env.ifaces[n])
    requires Missing(before, info, env.ifaces[n]) ==>
               fields' == fields[env.ifaces[n] := Some(DefaultInterface(env, hw, env.ifaces[n]).value)]
    requires !Missing(before, info, env.ifaces[n]) ==> fields' == fields
    ensures Updated(env, hw, before, info, n + 1, fields')
  {
    var iface, done := env.ifaces[n], env.ifaces[..n];
    assert env.ifaces[..n + 1] == done + [iface];
    forall f | FieldUpdated(env, hw, before, info, done, fields, f)
      ensures FieldUpdated(env, hw, before, info, done + [iface], fields', f)
    {
      FieldStep(env, hw, before, info, done, iface, fields, fields', f);
    }
  }

  /** What the pass says of an interface type depends on its field alone. */
  lemma SameField(env: Env, hw: HardwareType, before: Fields, info: Fields, fields: Fields, iface: string)
    requires ValueOf(fields, iface) == ValueOf(before, iface)
    ensures Missing(fields, info, iface) == Missing(before, info, iface)
    ensures Clears(env, hw, fields, info, iface) == Clears(env, hw, before, info, iface)
    ensures forall e :: StopsWith(env, hw, fields, info, iface, e) == StopsWith(env, hw, before, info, iface, e)
  {
  }

  /** The pass for one interface type: whether it set the field to the default. */
  method CheckInterface(env: Env, node: Node, hw: HardwareType, iface: string) returns (r: Result<bool, Error>)
    modifies node
    ensures r.Err? ==> node.fields == old(node.fields)
                       && StopsWith(env, hw, old(node.fields), node.instanceInfo, iface, r.error)
    ensures r.Ok? ==> Clears(env, hw, old(node.fields), node.instanceInfo, iface)
                      && r.value == Missing(old(node.fields), node.instanceInfo, iface)
                      && node.fields == if !r.value then old(node.fields)
                                        else old(node.fields)[iface := Some(DefaultInterface(env, hw, iface).value)]
  {
    var setDefault := true;
    var override := ValueOf(node.instanceInfo, iface);
    if override.Some? {
      var impl := GetInterface(env, hw, iface, override.value);
      if impl.Err? {
        return Err(impl.error);
      }
      setDefault := false;
    }
    var value := ValueOf(node.fields, iface);
    if value.Some? {
      var impl := GetInterface(env, hw, iface, value.value);
      if impl.Err? {
        return Err(impl.error);
      }
      setDefault := false;
    }
    if setDefault {
      var implName := DefaultInterface(env, hw, iface);
      if implName.Err? {
        return Err(implName.error);
      }
      node.fields := node.fields[iface := Some(implName.value)];
    }
    return Ok(setDefault);
  }

  /** `check_and_update_node_interfaces`; after an error the node keeps the defaults set so far. */
  method CheckAndUpdateNodeInterfaces(env: Env, node: Node, hwTypes: map<string, HardwareType>,
                                      hwType: Option<HardwareType>)
    returns (r: Result<bool, Error>)
    requires env.Valid()
    modifies node
    ensures r == Err(DriverNotFound) <==> hwType.None? && node.driver !in hwTypes
    ensures r == Err(DriverNotFound) ==> node.fields == old(node.fields)
    ensures r != Err(DriverNotFound) ==>
              var hw := if hwType.Some? then hwType.value else hwTypes[node.driver];
              match r
              case Ok(changed) =>
                && Updated(env, hw, old(node.fields), node.instanceInfo, |env.ifaces|, node.fields)
                && (changed <==> node.fields != old(node.fields))
              case Err(e) =>
                exists k :: 0 <= k < |env.ifaces|
                  && Updated(env, hw, old(node.fields), node.instanceInfo, k, node.fields)
                  && StopsWith(env, hw, old(node.fields), node.instanceInfo, env.ifaces[k], e)
  {
    if hwType.None? && node.driver !in hwTypes {
      return Err(DriverNotFound);
    }
    var hw := if hwType.Some? then hwType.value else hwTypes[node.driver];
    ghost var before := node.fields;
    var result := false;
    for n := 0 to |env.ifaces|
      invariant Updated(env, hw, before, node.instanceInfo, n, node.fields)
      invariant result <==> node.fields != before
    {
      ghost var fields := node.fields;
      NotYetTouched(env, hw, before, node.instanceInfo, n, fields);
      SameField(env, hw, before, node.instanceInfo, fields, env.ifaces[n]);
      var changed := CheckInterface(env, node, hw, env.ifaces[n]);
      if changed.Err? {
        return Err(changed.error);
      }
      UpdatedStep(env, hw, before, node.instanceInfo, n, fields, node.fields);
      result := result || changed.value;
    }
    return Ok(result);
  }

  /** After a pass that went through, everything set can be used and everything is set. */
  lemma EverythingSetPasses(env: Env, hw: HardwareType, before: Fields, info: Fields, after: Fields, i: nat)
    requires env.Valid() && Updated(env, hw, before, info, |env.ifaces|, after) && i < |env.ifaces|
    ensures Passes(env, hw, env.ifaces[i], ValueOf(info, env.ifaces[i]))
    ensures Passes(env, hw, env.ifaces[i], ValueOf(after, env.ifaces[i]))
    ensures !Missing(after, info, env.ifaces[i])
  {
    var iface := env.ifaces[i];
    assert env.ifaces[..|env.ifaces|] == env.ifaces;
    assert Clears(env, hw, before, info, iface);
    assert FieldUpdated(env, hw, before, info, env.ifaces, after, iface);
    if Missing(before, info, iface) {
      DefaultPasses(env, hw, iface);
    }
  }

  /** The value names a loaded implementation that the hardware type may use. */
  ghost predicate Usable(env: Env, hw: HardwareType, iface: string, name: string) {
    exists cls: Class :: IsLoaded(env, iface, name, cls) && (hw.fake || cls in SupportedOf(hw, iface))
  }

  /** So after a pass every interface of node and instance has a loaded, supported implementation. */
  lemma EverythingSetIsUsable(env: Env, hw: HardwareType, before: Fields, info: Fields, after: Fields, i: nat)
    requires env.Valid() && Updated(env, hw, before, info, |env.ifaces|, after) && i < |env.ifaces|
    ensures var iface := env.ifaces[i];
            && (iface in after && after[iface].Some? ==> Usable(env, hw, iface, after[iface].value))
            && (iface in info && info[iface].Some? ==> Usable(env, hw, iface, info[iface].value))
            && ((iface in after && after[iface].Some?) || (iface in info && info[iface].Some?))
  {
    var iface := env.ifaces[i];
    EverythingSetPasses(env, hw, before, info, after, i);
    if iface in after && after[iface].Some? {
      GetInterfaceExactly(env, hw, iface, after[iface].value);
      assert IsLoaded(env, iface, after[iface].value, GetInterface(env, hw, iface, after[iface].value).value);
    }
    if iface in info && info[iface].Some? {
      GetInterfaceExactly(env, hw, iface, info[iface].value);
      assert IsLoaded(env, iface, info[iface].value, GetInterface(env, hw, iface, info[iface].value).value);
    }
  }

  /** Only what neither node nor instance has set is set, and to the default; every other field stays. */
  lemma UpdatedExactly(env: Env, hw: HardwareType, before: Fields, info: Fields, after: Fields, f: string)
    requires env.Valid() && Updated(env, hw, before, info, |env.ifaces|, after)
    ensures var given := (f in info && info[f] != None) || (f in before && before[f] != None);
            if f in env.ifaces && !given then
              f in after && DefaultInterface(env, hw, f).Ok? && after[f] == Some(DefaultInterface(env, hw, f).value)
            else
              (f in after <==> f in before) && (f in before ==> after[f] == before[f])
  {
    assert env.ifaces[..|env.ifaces|] == env.ifaces;
    assert FieldUpdated(env, hw, before, info, env.ifaces, after, f);
  }

  /** A second pass succeeds and changes nothing. */
  lemma SecondPassIsIdle(env: Env, hw: HardwareType, before: Fields, info: Fields, after: Fields)
    requires env.Valid() && Updated(env, hw, before, info, |env.ifaces|, after)
    ensures forall i, e :: 0 <= i < |env.ifaces| ==> !StopsWith(env, hw, after, info, env.ifaces[i], e)
    ensures forall again :: Updated(env, hw, after, info, |env.ifaces|, again) <==> again == after
  {
    forall i | 0 <= i < |env.ifaces|
      ensures Clears(env, hw, after, info, env.ifaces[i]) && !Missing(after, info, env.ifaces[i])
    {
      EverythingSetPasses(env, hw, before, info, after, i);
    }
    assert env.ifaces[..|env.ifaces|] == env.ifaces;
    forall again, f | FieldUpdated(env, hw, after, info, env.ifaces, again, f)
      ensures (f in again <==> f in after) && (f in after ==> again[f] == after[f])
    {
    }
    forall again | Updated(env, hw, after, info, |env.ifaces|, again) ensures again == after {
      assert forall f :: FieldUpdated(env, hw, after, info, env.ifaces, again, f);
    }
  }
}
