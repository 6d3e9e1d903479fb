/**
 * Default-timezone resolution: what the pre-save step does when the
 * instance's timezone value is empty. The name comes from the first of three
 * sources that yields a non-empty string: the instance attribute named by
 * `default_tz`, the provider callable, the `TIME_ZONE` setting.
 */
module DefaultTimezone {
  import opened Wrappers
  import opened FieldTypes

  /** The resolved name, the field's `default_tz` setting as left behind,
      and the warnings emitted on the way. */
  datatype Resolved = Resolved(tz: string, defaultTz: DefaultTz, warnings: seq<Warning>)

  /** The value a provider returns when called. */
  function CallProvider(p: Provider, env: Env): PyValue
  {
    match p
    case SettingsZone => Str(env.timeZone)
    case UserCallable(id) => env.call(id)
  }

  /** The string the `default_tz` attribute holds, or "" when there is none. */
  function AttrCandidate(d: DefaultTz, attrs: string -> Option<PyValue>): string
  {
    if d.AttrName? && attrs(d.name).Some? && attrs(d.name).value.Str? then attrs(d.name).value.s else ""
  }

  /** The provider the step ends up calling, if any: the configured callable,
      the callable the attribute holds, or the settings fallback that replaces
      an attribute holding neither a string nor a callable. */
  function ConsultedProvider(d: DefaultTz, attrs: string -> Option<PyValue>): Option<Provider>
  {
    match d
    case UseProvider(p) => Some(p)
    case NoDefault => None
    case AttrName(name) =>
      match attrs(name)
      case Some(Callable(p)) => Some(p)
      case Some(OtherValue) => Some(SettingsZone)
      case _ => None
  }

  /** The string the consulted provider returns, or "" when none is
      consulted or it returns something other than a string. */
  function ProviderCandidate(d: DefaultTz, attrs: string -> Option<PyValue>, env: Env): string
  {
    match ConsultedProvider(d, attrs)
    case None => ""
    case Some(p) => if CallProvider(p, env).Str? then CallProvider(p, env).s else ""
  }

  /** The first non-empty name of `names`, or "" when all are empty. */
  function FirstNonEmpty(names: seq<string>): (r: string)
    ensures r == "" <==> forall i :: 0 <= i < |names| ==> names[i] == ""
    ensures r != "" ==>
      exists i :: 0 <= i < |names| && names[i] == r && forall j :: 0 <= j < i ==> names[j] == ""
  {
    if names == [] then ""
    else if names[0] != "" then names[0]
    else FirstNonEmpty(names[1..])
  }

  /** The three-source instance of `FirstNonEmpty`, unfolded. */
  lemma {:induction false} FirstOfThree(a: string, b: string, c: string)
    ensures FirstNonEmpty([a, b, c]) == if a != "" then a else if b != "" then b else c
  {
    assert [c][1..] == [];
    assert FirstNonEmpty([c]) == c;
    assert [b, c][1..] == [c];
    assert FirstNonEmpty([b, c]) == if b != "" then b else c;
    assert [a, b, c][1..] == [b, c];
  }

  /** Calls provider `p` (which `default_tz` now holds) and falls back to
      the setting, with a warning, on an empty or non-string answer. */
  function CallDefault(p: Provider, warnings: seq<Warning>, env: Env): Resolved
  {
    var v := CallProvider(p, env);
    if v.Str? && v.s != "" then Resolved(v.s, UseProvider(p), warnings)
    else Resolved(env.timeZone, UseProvider(p), warnings + [CannotUseDefaultValue(v)])
  }

  /**
   * The default-timezone branch of the pre-save step. Fails only when
   * `default_tz` names an attribute the instance lacks. Otherwise the name is
   * the first non-empty of (attribute string, provider answer, setting);
   * `default_tz` is left as the provider that was consulted, if one was; and
   * a warning is emitted exactly when the attribute was unusable or the
   * provider's answer was.
   */
  function ResolveDefault(d: DefaultTz, attrs: string -> Option<PyValue>, env: Env)
    : (r: Result<Resolved, SaveError>)
    requires env.Valid()
    ensures r.Failure? <==> d.AttrName? && attrs(d.name).None?
    ensures r.Success? ==> r.value.tz != ""
    ensures r.Success? ==>
      r.value.tz == FirstNonEmpty([AttrCandidate(d, attrs), ProviderCandidate(d, attrs, env), env.timeZone])
    ensures r.Success? ==>
      r.value.defaultTz == (match ConsultedProvider(d, attrs) case Some(p) => UseProvider(p) case None => d)
    ensures r.Success? ==> |r.value.warnings| <= 1
    ensures r.Success? && d.AttrName? && attrs(d.name) == Some(OtherValue) ==>
      r.value.warnings == [CannotUseDefaultTz(d.name)]
    ensures r.Success? && ConsultedProvider(d, attrs).Some? && ProviderCandidate(d, attrs, env) == "" ==>
      r.value.warnings == [CannotUseDefaultValue(CallProvider(ConsultedProvider(d, attrs).value, env))]
    ensures r.Success? && r.value.warnings != [] ==>
      (d.AttrName? && attrs(d.name) == Some(OtherValue))
      || (ConsultedProvider(d, attrs).Some? && ProviderCandidate(d, attrs, env) == "")
  {
    FirstOfThree(AttrCandidate(d, attrs), ProviderCandidate(d, attrs, env), env.timeZone);
    match d
    case AttrName(name) =>
      (match attrs(name)
       case None => Failure(AttributeMissing(name))
       case Some(Str(s)) => Success(Resolved(if s != "" then s else env.timeZone, d, []))
       case Some(Callable(p)) => Success(CallDefault(p, [], env))
       case Some(OtherValue) => Success(CallDefault(SettingsZone, [CannotUseDefaultTz(name)], env)))
    case UseProvider(p) => Success(CallDefault(p, [], env))
    case NoDefault => Success(Resolved(env.timeZone, d, []))
  }

  /** Resolving again with the `default_tz` the first resolution left behind
      leaves `default_tz` alone and warns no more: an unusable attribute is
      replaced once and for all. That the name is also the same rests on the
      model's assumption that a callable answers as a pure function of its
      identity (`Env.call`); a real provider may answer differently on the
      next call, so only the `default_tz` and warning parts describe the code. */
  lemma DefaultResolutionSettles(d: DefaultTz, attrs: string -> Option<PyValue>, env: Env)
    requires env.Valid()
    requires ResolveDefault(d, attrs, env).Success?
    ensures var first := ResolveDefault(d, attrs, env).value;
      var second := ResolveDefault(first.defaultTz, attrs, env);
      && second.Success?
      && second.value.tz == first.tz
      && second.value.defaultTz == first.defaultTz
      && second.value.warnings <= first.warnings
  {
  }
}
