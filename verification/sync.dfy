/**
 * The synchronisation of a `UTCDateTimeField`: the three values stored on a
 * model instance (local datetime, UTC datetime, timezone name), their shadow
 * snapshot, and the three lifecycle hooks that keep them consistent:
 * post-init (`ModelInit`), pre-save (`PreSave`) and post-save (`PostSave`).
 */
module Sync {
  import opened Wrappers
  import opened FieldTypes
  import DefaultTimezone

  /** The field's three values: the local datetime `name`, the UTC datetime
      `name_utc` and the timezone name `name_tz`; or their shadow copies
      `_name`, `_name_utc`, `_name_tz`. An empty `tz` stands for both None and
      "", which the source does not tell apart. */
  datatype Triple = Triple(dt: Option<DateTime>, utc: Option<DateTime>, tz: string)

  /** A model instance as far as the field is concerned: the values callers
      see and assign, and the snapshot taken at the last synchronisation. */
  datatype Record = Record(fields: Triple, snapshot: Triple)


  /** The post-save hook: the snapshot's datetimes are copied back into the
      fields; the timezone field and the snapshot are left alone. */
  function PostSave(rec: Record): (r: Record)
    ensures r.snapshot == rec.snapshot
    ensures r.fields == rec.snapshot.(tz := rec.fields.tz)
  {
    rec.(fields := rec.fields.(dt := rec.snapshot.dt, utc := rec.snapshot.utc))
  }

  /** The zone the conversions use for timezone name `name`: the database's
      zone, or UTC when the database does not know the name. */
  function ZoneFor(name: string, env: Env): TzInfo
  {
    match env.resolve(name)
    case Some(zone) => zone
    case None => env.utcZone
  }

  /** Which rule of the pre-save chain decides the direction of the update.
      `InSync` is the outcome when none of them fires. */
  datatype Decision = Unset | LocalEdited | UtcOrZoneEdited | LocalMissing | UtcMissing | InSync

  /** The condition of each rule, read on its own: the current values
      `dt`, `utc`, the timezone name `tz` in effect, and the snapshot. */
  predicate Guard(k: Decision, dt: Option<DateTime>, utc: Option<DateTime>, tz: string, snap: Triple)
  {
    match k
    case Unset => dt.None? && utc.None?
    case LocalEdited => dt.Some? && dt != snap.dt
    case UtcOrZoneEdited => utc.Some? && (utc != snap.utc || tz != snap.tz)
    case LocalMissing => dt.None?
    case UtcMissing => utc.None?
    case InSync => true
  }

  /** The order in which the rules are tried. */
  const Precedence: seq<Decision> := [Unset, LocalEdited, UtcOrZoneEdited, LocalMissing, UtcMissing]

  /** The first rule of `rules` whose guard holds, or `InSync` if none does. */
  function FirstFiring(rules: seq<Decision>, dt: Option<DateTime>, utc: Option<DateTime>, tz: string, snap: Triple)
    : Decision
  {
    if rules == [] then InSync
    else if Guard(rules[0], dt, utc, tz, snap) then rules[0]
    else FirstFiring(rules[1..], dt, utc, tz, snap)
  }

  /**
   * The if/elif chain of the pre-save step. A local datetime that differs
   * from the snapshot wins over everything else; the outcome is `InSync`
   * exactly when nothing differs from the snapshot and both datetimes are
   * present; and each outcome tells which datetime is there to convert from.
   */
  function Decide(dt: Option<DateTime>, utc: Option<DateTime>, tz: string, snap: Triple): (k: Decision)
    ensures k == Unset <==> dt.None? && utc.None?
    ensures k == LocalEdited <==> dt.Some? && dt != snap.dt
    ensures k == UtcOrZoneEdited <==>
      !(dt.Some? && dt != snap.dt) && utc.Some? && (utc != snap.utc || tz != snap.tz)
    ensures k == InSync <==> dt.Some? && utc.Some? && dt == snap.dt && utc == snap.utc && tz == snap.tz
    ensures k == LocalEdited || k == UtcMissing || k == InSync ==> dt.Some?
    ensures k == UtcOrZoneEdited || k == LocalMissing || k == InSync ==> utc.Some?
    ensures k == UtcMissing ==> utc.None?
    ensures k == LocalMissing ==> dt.None?
  {
    if dt.None? && utc.None? then Unset
    else if dt.Some? && dt != snap.dt then LocalEdited
    else if utc.Some? && (utc != snap.utc || tz != snap.tz) then UtcOrZoneEdited
    else if dt.None? then LocalMissing
    else if utc.None? then UtcMissing
    else InSync
  }

  /** The datetimes after the chosen rule has recomputed one from the other. */
  function Reconcile(k: Decision, dt: Option<DateTime>, utc: Option<DateTime>, zone: TzInfo, env: Env)
    : (DateTime, DateTime)
    requires k != Unset
    requires k == LocalEdited || k == UtcMissing || k == InSync ==> dt.Some?
    requires k == UtcOrZoneEdited || k == LocalMissing || k == InSync ==> utc.Some?
  {
    match k
    case LocalEdited => (dt.value, env.toUtc(dt.value, zone))
    case UtcMissing => (dt.value, env.toUtc(dt.value, zone))
    case UtcOrZoneEdited => (env.toLocal(utc.value, zone), utc.value)
    case LocalMissing => (env.toLocal(utc.value, zone), utc.value)
    case InSync => (dt.value, utc.value)
  }

  /** The post-init hook: the snapshot starts as a copy of the loaded
      values, so neither edit rule fires on a record that was only loaded. */
  function ModelInit(fields: Triple): (r: Record)
    ensures r.fields == fields
    ensures r.snapshot == fields
    ensures !Guard(LocalEdited, r.fields.dt, r.fields.utc, r.fields.tz, r.snapshot)
    ensures !Guard(UtcOrZoneEdited, r.fields.dt, r.fields.utc, r.fields.tz, r.snapshot)
  {
    Record(fields, fields)
  }

  /** The state a completed synchronisation leaves: both datetimes present
      and naive, and the snapshot equal to the fields except that it records
      the timezone name `tz` that was worked with. */
  predicate Synced(rec: Record, tz: string)
  {
    && rec.fields.dt.Some? && rec.fields.dt.value.IsNaive()
    && rec.fields.utc.Some? && rec.fields.utc.value.IsNaive()
    && rec.snapshot == rec.fields.(tz := tz)
  }

  /** What the pre-save step leaves behind: the field's `default_tz`
      setting, the instance, the timezone name it worked with (the local
      variable `tz`), the rule that fired, and the warnings emitted. */
  datatype Saved = Saved(defaultTz: DefaultTz, record: Record, zoneName: string,
                         decision: Decision, warnings: seq<Warning>)

  /** The timezone name the step works with: the stored one, or a default. */
  function ZoneName(d: DefaultTz, rec: Record, attrs: string -> Option<PyValue>, env: Env)
    : (r: Result<DefaultTimezone.Resolved, SaveError>)
    requires env.Valid()
    ensures r.Success? ==> r.value.tz != ""
    ensures rec.fields.tz != "" ==> r == Success(DefaultTimezone.Resolved(rec.fields.tz, d, []))
  {
    if rec.fields.tz != "" then Success(DefaultTimezone.Resolved(rec.fields.tz, d, []))
    else DefaultTimezone.ResolveDefault(d, attrs, env)
  }

  /**
   * The pre-save hook. `d` is the field's `default_tz` setting, `attrs` the
   * instance's other attributes. It fails only when the default names a
   * missing attribute. Otherwise: the timezone field holds the name worked
   * with, or "UTC" when the database does not know it (with a warning); an
   * unset record keeps its datetimes and snapshot; any other record ends
   * synchronised against the name worked with.
   */
  function PreSave(d: DefaultTz, rec: Record, attrs: string -> Option<PyValue>, env: Env)
    : (r: Result<Saved, SaveError>)
    requires env.Valid()
    ensures r.Failure? <==> rec.fields.tz == "" && d.AttrName? && attrs(d.name).None?
    ensures r.Success? ==> r.value.zoneName != ""
    ensures r.Success? && rec.fields.tz != "" ==> r.value.zoneName == rec.fields.tz && r.value.defaultTz == d
    ensures r.Success? ==>
      r.value.record.fields.tz == (if env.resolve(r.value.zoneName).Some? then r.value.zoneName else "UTC")
    ensures r.Success? ==>
      (UnknownTimezone(r.value.zoneName) in r.value.warnings <==> env.resolve(r.value.zoneName).None?)
    ensures r.Success? ==> |r.value.warnings| <= 2
    ensures r.Success? ==>
      r.value.warnings == ZoneName(d, rec, attrs, env).value.warnings
        + (if env.resolve(r.value.zoneName).Some? then [] else [UnknownTimezone(r.value.zoneName)])
    ensures r.Success? && rec.fields.tz != "" && env.resolve(rec.fields.tz).Some? ==> r.value.warnings == []
    ensures r.Success? ==> (r.value.decision == Unset <==> rec.fields.dt.None? && rec.fields.utc.None?)
    ensures r.Success? && r.value.decision == Unset ==>
      r.value.record == Record(rec.fields.(tz := r.value.record.fields.tz), rec.snapshot)
    ensures r.Success? && r.value.decision != Unset ==> Synced(r.value.record, r.value.zoneName)
  {
    match ZoneName(d, rec, attrs, env)
    case Failure(e) => Failure(e)
    case Success(named) =>
      var name := named.tz;
      var known := env.resolve(name).Some?;
      var fieldTz := if known then name else "UTC";
      var warnings := named.warnings + (if known then [] else [UnknownTimezone(name)]);
      var k := Decide(rec.fields.dt, rec.fields.utc, name, rec.snapshot);
      if k == Unset then
        Success(Saved(named.defaultTz, Record(rec.fields.(tz := fieldTz), rec.snapshot), name, k, warnings))
      else
        var (dt, utc) := Reconcile(k, rec.fields.dt, rec.fields.utc, ZoneFor(name, env), env);
        var stored := Triple(Some(StripOffset(dt)), Some(StripOffset(utc)), fieldTz);
        Success(Saved(named.defaultTz, Record(stored, stored.(tz := name)), name, k, warnings))
  }
}
