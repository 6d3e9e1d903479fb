/**
 * Properties of the pre-save step that involve its rules one at a time, or
 * several calls of the lifecycle hooks.
 */
module SyncProperties {
  import opened Wrappers
  import opened FieldTypes
  import DefaultTimezone
  import opened Sync

  /** The if/elif chain is the "first rule whose guard holds" reading of the
      rules taken in precedence order, with `InSync` when none holds. */
  lemma {:induction false} DecideFollowsPrecedence(dt: Option<DateTime>, utc: Option<DateTime>, tz: string, snap: Triple)
    ensures Decide(dt, utc, tz, snap) == FirstFiring(Precedence, dt, utc, tz, snap)
  {
    var l5 := [UtcMissing];
    assert l5[1..] == [];
    assert FirstFiring(l5, dt, utc, tz, snap) == if utc.None? then UtcMissing else InSync;
    var l4 := [LocalMissing] + l5;
    assert l4[1..] == l5;
    assert FirstFiring(l4, dt, utc, tz, snap)
      == if dt.None? then LocalMissing else FirstFiring(l5, dt, utc, tz, snap);
    var l3 := [UtcOrZoneEdited] + l4;
    assert l3[1..] == l4;
    assert FirstFiring(l3, dt, utc, tz, snap)
      == if Guard(UtcOrZoneEdited, dt, utc, tz, snap) then UtcOrZoneEdited else FirstFiring(l4, dt, utc, tz, snap);
    var l2 := [LocalEdited] + l3;
    assert l2[1..] == l3;
    assert FirstFiring(l2, dt, utc, tz, snap)
      == if Guard(LocalEdited, dt, utc, tz, snap) then LocalEdited else FirstFiring(l3, dt, utc, tz, snap);
    assert Precedence == [Unset] + l2;
    assert Precedence[1..] == l2;
  }

  /** A local datetime that differs from the snapshot wins, whatever happened
      to the UTC value: it is kept (offset stripped) and the UTC value is
      recomputed from it in the zone worked with. */
  lemma LocalEditWins(d: DefaultTz, rec: Record, attrs: string -> Option<PyValue>, env: Env)
    requires env.Valid()
    requires PreSave(d, rec, attrs, env).Success?
    requires rec.fields.dt.Some? && rec.fields.dt != rec.snapshot.dt
    ensures var s := PreSave(d, rec, attrs, env).value;
      var local := rec.fields.dt.value;
      && s.decision == LocalEdited
      && s.record.fields.dt == Some(StripOffset(local))
      && s.record.fields.utc == Some(StripOffset(env.toUtc(local, ZoneFor(s.zoneName, env))))
  {
  }

  /** Otherwise a present UTC value that differs from the snapshot, or a
      timezone name that differs from the snapshot's, wins: the UTC value is
      kept and the local datetime is recomputed from it. */
  lemma UtcOrZoneEditRecomputesLocal(d: DefaultTz, rec: Record, attrs: string -> Option<PyValue>, env: Env)
    requires env.Valid()
    requires PreSave(d, rec, attrs, env).Success?
    requires !(rec.fields.dt.Some? && rec.fields.dt != rec.snapshot.dt)
    requires rec.fields.utc.Some?
    requires rec.fields.utc != rec.snapshot.utc || PreSave(d, rec, attrs, env).value.zoneName != rec.snapshot.tz
    ensures var s := PreSave(d, rec, attrs, env).value;
      var instant := rec.fields.utc.value;
      && s.decision == UtcOrZoneEdited
      && s.record.fields.utc == Some(StripOffset(instant))
      && s.record.fields.dt == Some(StripOffset(env.toLocal(instant, ZoneFor(s.zoneName, env))))
  {
  }

  /** When neither edit rule fires, a missing datetime is computed from the
      present one, and the present one is kept. */
  lemma MissingValueFilledIn(d: DefaultTz, rec: Record, attrs: string -> Option<PyValue>, env: Env)
    requires env.Valid()
    requires PreSave(d, rec, attrs, env).Success?
    requires rec.fields.dt.None? != rec.fields.utc.None?
    requires !(rec.fields.dt.Some? && rec.fields.dt != rec.snapshot.dt)
    requires !(rec.fields.utc.Some? && (rec.fields.utc != rec.snapshot.utc
                                         || PreSave(d, rec, attrs, env).value.zoneName != rec.snapshot.tz))
    ensures var s := PreSave(d, rec, attrs, env).value;
      var zone := ZoneFor(s.zoneName, env);
      && (rec.fields.dt.None? ==>
            s.decision == LocalMissing
            && s.record.fields.utc == Some(StripOffset(rec.fields.utc.value))
            && s.record.fields.dt == Some(StripOffset(env.toLocal(rec.fields.utc.value, zone))))
      && (rec.fields.utc.None? ==>
            s.decision == UtcMissing
            && s.record.fields.dt == Some(StripOffset(rec.fields.dt.value))
            && s.record.fields.utc == Some(StripOffset(env.toUtc(rec.fields.dt.value, zone))))
  {
  }

  /** When both datetimes are present and nothing differs from the snapshot,
      no conversion happens: the values are only stripped of offsets. */
  lemma UneditedRecordIsOnlyNormalised(d: DefaultTz, rec: Record, attrs: string -> Option<PyValue>, env: Env)
    requires env.Valid()
    requires PreSave(d, rec, attrs, env).Success?
    requires rec.fields.dt.Some? && rec.fields.utc.Some?
    requires rec.fields.dt == rec.snapshot.dt && rec.fields.utc == rec.snapshot.utc
    requires PreSave(d, rec, attrs, env).value.zoneName == rec.snapshot.tz
    ensures var s := PreSave(d, rec, attrs, env).value;
      && s.decision == InSync
      && s.record.fields.dt == Some(StripOffset(rec.fields.dt.value))
      && s.record.fields.utc == Some(StripOffset(rec.fields.utc.value))
  {
  }

  /** The step converts only on an edit or a missing value; it never
      re-checks an unedited pair. A loaded row whose UTC value does not
      match its local datetime is saved as it is, still mismatched. */
  lemma UneditedMismatchIsKept()
    ensures
      var chicago := TzInfo("America/Chicago");
      var env := Env("UTC", _ => OtherValue, _ => Some(chicago), TzInfo("UTC"),
                     (d, z) => d, (d, z) => d);
      var local := DateTime(Clock(2023, 11, 5, 1, 30, 0, 0), None);
      var instant := DateTime(Clock(1999, 1, 1, 0, 0, 0, 0), None);
      var r := PreSave(NoDefault, ModelInit(Triple(Some(local), Some(instant), "America/Chicago")),
                       _ => None, env);
      && r.Success?
      && r.value.decision == InSync
      && r.value.record.fields.utc == Some(instant)
      && r.value.record.fields.utc != Some(StripOffset(env.toUtc(local, chicago)))
  {
  }

  /** An unknown timezone name: the timezone field becomes "UTC", a warning
      names the rejected name (the only warning when the name was stored
      rather than resolved as a default), the conversions use the UTC zone,
      and a synchronised snapshot still records the rejected name. */
  lemma UnknownTimezoneFallsBackToUtc(d: DefaultTz, rec: Record, attrs: string -> Option<PyValue>, env: Env)
    requires env.Valid()
    requires PreSave(d, rec, attrs, env).Success?
    requires env.resolve(PreSave(d, rec, attrs, env).value.zoneName).None?
    ensures var s := PreSave(d, rec, attrs, env).value;
      && s.record.fields.tz == "UTC"
      && UnknownTimezone(s.zoneName) in s.warnings
      && (rec.fields.tz != "" ==> s.warnings == [UnknownTimezone(s.zoneName)])
      && ZoneFor(s.zoneName, env) == env.utcZone
      && (s.decision != Unset ==> s.record.snapshot.tz == s.zoneName)
  {
  }

  /** An empty timezone value is replaced by the resolved default, which is
      written to the timezone field when the database knows it; the field's
      `default_tz` setting is left as the resolution left it. */
  lemma EmptyTimezoneTakesDefault(d: DefaultTz, rec: Record, attrs: string -> Option<PyValue>, env: Env)
    requires env.Valid()
    requires rec.fields.tz == ""
    requires PreSave(d, rec, attrs, env).Success?
    ensures var s := PreSave(d, rec, attrs, env).value;
      var named := DefaultTimezone.ResolveDefault(d, attrs, env);
      && named.Success?
      && s.zoneName == named.value.tz
      && s.defaultTz == named.value.defaultTz
      && named.value.warnings <= s.warnings
      && (env.resolve(s.zoneName).Some? ==> s.record.fields.tz == named.value.tz)
  {
  }

  /** Saving again without edits in between, once the timezone name worked
      with is known to the database, fires no rule, calls no conversion,
      warns about nothing and changes nothing. */
  lemma SecondPreSaveChangesNothing(d: DefaultTz, rec: Record, attrs: string -> Option<PyValue>, env: Env)
    requires env.Valid()
    requires PreSave(d, rec, attrs, env).Success?
    requires env.resolve(PreSave(d, rec, attrs, env).value.zoneName).Some?
    ensures var first := PreSave(d, rec, attrs, env).value;
      var second := PreSave(first.defaultTz, first.record, attrs, env);
      && second.Success?
      && second.value.decision in {Unset, InSync}
      && second.value.record == first.record
      && second.value.defaultTz == first.defaultTz
      && second.value.zoneName == first.zoneName
      && second.value.warnings == []
  {
  }

  /** After a synchronising pre-save, the post-save hook changes nothing. */
  lemma PostSaveAfterSyncChangesNothing(d: DefaultTz, rec: Record, attrs: string -> Option<PyValue>, env: Env)
    requires env.Valid()
    requires PreSave(d, rec, attrs, env).Success?
    requires rec.fields.dt.Some? || rec.fields.utc.Some?
    ensures var s := PreSave(d, rec, attrs, env).value;
      PostSave(s.record) == s.record
  {
  }

  /** A freshly loaded record with both datetimes present and naive, and a
      known timezone name, saves without any conversion and unchanged. */
  lemma LoadedRecordSavesUnchanged(d: DefaultTz, loaded: Triple, attrs: string -> Option<PyValue>, env: Env)
    requires env.Valid()
    requires loaded.dt.Some? && loaded.dt.value.IsNaive()
    requires loaded.utc.Some? && loaded.utc.value.IsNaive()
    requires loaded.tz != "" && env.resolve(loaded.tz).Some?
    ensures var r := PreSave(d, ModelInit(loaded), attrs, env);
      && r.Success?
      && r.value.decision == InSync
      && r.value.warnings == []
      && r.value.record == ModelInit(loaded)
  {
  }

  /** The snapshot records the rejected name while the field holds "UTC", so
      the next save sees a timezone edit and recomputes the local datetime in
      UTC; only the save after that is quiet. */
  lemma UnknownTimezoneSettlesOnThirdSave(d: DefaultTz, rec: Record, attrs: string -> Option<PyValue>, env: Env)
    requires env.Valid()
    requires env.resolve("UTC") == Some(env.utcZone)
    requires rec.fields.dt.Some? || rec.fields.utc.Some?
    requires PreSave(d, rec, attrs, env).Success?
    requires env.resolve(PreSave(d, rec, attrs, env).value.zoneName).None?
    ensures var first := PreSave(d, rec, attrs, env).value;
      var second := PreSave(first.defaultTz, first.record, attrs, env);
      && second.Success?
      && second.value.decision == UtcOrZoneEdited
      && second.value.record.fields.utc == first.record.fields.utc
      && second.value.record.fields.dt == Some(StripOffset(env.toLocal(first.record.fields.utc.value, env.utcZone)))
      && var third := PreSave(second.value.defaultTz, second.value.record, attrs, env);
      && third.Success?
      && third.value.decision == InSync
      && third.value.record == second.value.record
  {
  }
}
