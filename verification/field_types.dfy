/**
 * The values a `UTCDateTimeField` works with: datetimes with or without an
 * attached tzinfo, the field's `default_tz` setting, the warnings it emits,
 * and the environment it consults (timezone database, conversions, settings).
 */
module FieldTypes {
  import opened Wrappers

  /** A calendar date and wall-clock time, without any offset. No calendar
      validity is imposed: the conversions that would need it are abstract. */
  datatype Clock = Clock(year: int, month: int, day: int,
                         hour: int, minute: int, second: int, microsecond: int)

  /** The identity of a tzinfo object (`pytz.UTC`, a zone's DST-aware variant,
      ...). Its offset and DST rules are not modelled. */
  datatype TzInfo = TzInfo(key: string)

  /** A Python `datetime`: a clock reading, naive when `tzinfo` is None. */
  datatype DateTime = DateTime(clock: Clock, tzinfo: Option<TzInfo>)
  {
    predicate IsNaive() { tzinfo.None? }
  }

  /** `dt.replace(tzinfo=None)` when `dt.tzinfo` is set, `dt` otherwise. */
  function StripOffset(d: DateTime): (r: DateTime)
    ensures r.IsNaive()
    ensures r.clock == d.clock
    ensures d.IsNaive() ==> r == d
  {
    if d.tzinfo.Some? then d.(tzinfo := None) else d
  }

  /** A callable that can serve as the default-timezone provider: the
      settings fallback `lambda: settings.TIME_ZONE`, or a callable of the
      application, identified by a number. */
  datatype Provider = SettingsZone | UserCallable(id: nat)

  /** A Python value seen through the two tests the source makes of it:
      is it a string, is it callable. */
  datatype PyValue = Str(s: string) | Callable(p: Provider) | OtherValue

  /** The field's `default_tz` setting. `NoDefault` is None or any value
      that is neither a string nor callable; `AttrName` names an attribute of
      the instance to read; `UseProvider` is a callable to invoke. */
  datatype DefaultTz = NoDefault | AttrName(name: string) | UseProvider(p: Provider)

  /** The `warnings.warn` calls of the pre-save step, in emission order. */
  datatype Warning =
    | CannotUseDefaultTz(attr: string)    // the attribute held neither a string nor a callable
    | CannotUseDefaultValue(v: PyValue)   // the provider returned an empty or non-string value
    | UnknownTimezone(name: string)       // the timezone database rejected the name

  /** The one failure that escapes the pre-save step: `getattr` on an
      attribute the instance lacks raises `AttributeError`. */
  datatype SaveError = AttributeMissing(name: string)

  /**
   * Everything the pre-save step consults outside the record:
   *  - `timeZone`: `settings.TIME_ZONE`, or 'UTC' when unset;
   *  - `call`: what each application callable returns when called;
   *  - `resolve`: `pytz.timezone`, None standing for `UnknownTimeZoneError`;
   *  - `utcZone`: `pytz.UTC`;
   *  - `toUtc`, `toLocal`: `utc_from_localtime` and `localtime_from_utc`,
   *    whose DST arithmetic is left uninterpreted.
   */
  datatype Env = Env(
    timeZone: string,
    call: nat -> PyValue,
    resolve: string -> Option<TzInfo>,
    utcZone: TzInfo,
    toUtc: (DateTime, TzInfo) -> DateTime,
    toLocal: (DateTime, TzInfo) -> DateTime)
  {
    /** An assumption of the model: the setting holds some timezone name.
        Django also accepts `TIME_ZONE = None`, which is not modelled. */
    predicate Valid() { timeZone != "" }
  }
}
