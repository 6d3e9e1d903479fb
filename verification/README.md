# UTCDateTimeField synchronisation, modelled in Dafny

`UTCDateTimeField` (django-extensions) stores three values on a model instance:
a naive local datetime (`name`), a naive UTC datetime (`name_utc`) and a
timezone name (`name_tz`). It also keeps a shadow snapshot of them (`_name`,
`_name_utc`, `_name_tz`). Three ORM hooks keep these values consistent:

- post-init (`Sync.ModelInit`) takes the snapshot.
- pre-save (`Sync.PreSave`) reconciles the values.
- post-save (`Sync.PostSave`) copies the snapshot datetimes back into the fields.

The pre-save step does four things in order:

1. When the timezone value is empty, it resolves a default (`DefaultTimezone.ResolveDefault`).
2. When the timezone database does not know the name, it falls back to UTC.
3. It picks the authoritative value with an ordered chain of rules (`Sync.Decide`).
4. It recomputes the other datetime, strips offsets and refreshes the snapshot.

The timezone database, the two conversions (`utc_from_localtime`,
`localtime_from_utc`), `settings.TIME_ZONE`, `pytz.UTC` and the application's
callables are fields of `FieldTypes.Env`. They are uninterpreted functions and
constants. So the theorems are about the decision logic only, not about
calendar or DST arithmetic.

Files:

- `wrappers.dfy`: `Option` and `Result`.
- `field_types.dfy`: datetimes, the `default_tz` setting, warnings and the environment.
- `default_tz.dfy`: default-timezone resolution.
- `sync.dfy`: the record, its snapshot, the rule chain and the three hooks.
- `sync_properties.dfy`: the per-rule properties, idempotence and the unknown-timezone sequence.
- `lifecycle.dfy`: whole saves (pre-save, row write, post-save), repeated saves, and the finding below.

Four behaviours of the code worth knowing:

- The code resolves the timezone before it checks for an unset record, not after. An unset record can therefore still have its timezone field filled in or replaced by "UTC", with warnings.
- After an unknown timezone, the name compared with the snapshot and written to the snapshot is the original name. Only the field is overwritten with "UTC".
- The snapshot is refreshed in pre-save, not in post-save. Post-save copies in the opposite direction, from the snapshot into the fields.
- When a datetime is present, a second save without edits is quiet only when the name it worked with is known to the database. Otherwise it sees a timezone edit (`SyncProperties.UnknownTimezoneSettlesOnThirdSave`).

## Model

| member | source | states |
|---|---|---|
| FieldTypes.StripOffset | django_extensions/db/fields/utc.py:91-94 | the stored datetime carries no offset and shows the same clock reading; an already naive datetime is returned unchanged |
| DefaultTimezone.FirstNonEmpty | django_extensions/db/fields/utc.py:57-63 | the result is empty exactly when every candidate is empty; otherwise it is the first non-empty candidate |
| DefaultTimezone.ResolveDefault | django_extensions/db/fields/utc.py:43-63 | fails exactly when `default_tz` names a missing attribute; otherwise the name is non-empty and is the first non-empty value among (the attribute's string, the consulted provider's string, the setting); `default_tz` becomes the provider that was consulted (a callable attribute, or the settings fallback after an unusable attribute); at most one warning, emitted exactly for an unusable attribute or an unusable provider answer |
| DefaultTimezone.DefaultResolutionSettles | django_extensions/db/fields/utc.py:50-56 | resolving again with the `default_tz` left behind gives the same name and the same setting, and never warns more: an invalid attribute is replaced once and for all |
| Sync.Decide | django_extensions/db/fields/utc.py:76-90 | unset exactly when both datetimes are absent; a changed local datetime wins whatever happened to the UTC value; otherwise a present UTC value or name that differs from the snapshot wins; no rule fires exactly when both are present and datetime, UTC value and name all equal the snapshot; each outcome guarantees the datetime it converts from is present |
| SyncProperties.DecideFollowsPrecedence | django_extensions/db/fields/utc.py:76-90 | the chain picks the first rule, in precedence order, whose own condition holds (unset, local edit, UTC-or-zone edit, local missing, UTC missing), and otherwise fires none |
| Sync.ModelInit | django_extensions/db/fields/utc.py:34-37 | post-init: the fields and the snapshot are both the loaded values, and so against the snapshot taken neither the local-edit rule nor the UTC-or-zone-edit rule fires, so a record that was only loaded is not seen as edited |
| Sync.PostSave | django_extensions/db/fields/utc.py:101-103 | post-save: the fields' datetimes become the snapshot's; the timezone field and the snapshot are untouched |
| Sync.ZoneName | django_extensions/db/fields/utc.py:42-64 | a stored non-empty name is used as is, with `default_tz` untouched and no warning; otherwise a resolved name is never empty |
| Sync.PreSave | django_extensions/db/fields/utc.py:39-99 | fails only on a missing default attribute; the timezone field ends as the name worked with, or "UTC" when it is unknown; the warnings are those of default resolution followed by one naming an unknown name, at most two in all; none when a known name was already set; an unset record keeps datetimes and snapshot; any other record ends with both datetimes present and naive and the snapshot equal to the fields with the name worked with |
| SyncProperties.LocalEditWins | django_extensions/db/fields/utc.py:79-81 | a present local datetime that differs from the snapshot is kept and the UTC value becomes `toUtc` of it in the zone used, even when the UTC value was edited too |
| SyncProperties.UtcOrZoneEditRecomputesLocal | django_extensions/db/fields/utc.py:82-84 | otherwise a present UTC value that differs from the snapshot, or a name that differs from the snapshot's, keeps the UTC value and recomputes the local datetime with `toLocal` |
| SyncProperties.MissingValueFilledIn | django_extensions/db/fields/utc.py:85-90 | when neither edit rule fires, a missing local datetime is computed from the UTC value and a missing UTC value from the local datetime |
| SyncProperties.UneditedRecordIsOnlyNormalised | django_extensions/db/fields/utc.py:91-99 | with both datetimes present and nothing changed, no conversion happens and the values are only stripped of offsets |
| SyncProperties.UneditedMismatchIsKept | django_extensions/db/fields/utc.py:79-90 | an example, with identity conversions, of what `SyncProperties.UneditedRecordIsOnlyNormalised` states in general: a loaded pair whose UTC value does not match its local datetime fires no rule and is saved still mismatched, because the step never re-checks an unedited pair |
| SyncProperties.UnknownTimezoneFallsBackToUtc | django_extensions/db/fields/utc.py:70-75 | an unknown name puts "UTC" in the timezone field, warns with that name (and only that, when the name was stored rather than a resolved default), converts in the UTC zone, and a synchronised snapshot still records the rejected name |
| SyncProperties.EmptyTimezoneTakesDefault | django_extensions/db/fields/utc.py:43-64 | an empty timezone value is replaced by the resolved default, which reaches the timezone field when it is known; the updated `default_tz` is kept |
| SyncProperties.SecondPreSaveChangesNothing | django_extensions/db/fields/utc.py:79-99 | after a save with a known name, a second pre-save with no edits fires no rule, calls no conversion, emits no warning and changes no field, snapshot or `default_tz` |
| SyncProperties.PostSaveAfterSyncChangesNothing | django_extensions/db/fields/utc.py:101-103 | after a pre-save that synchronised the record, the post-save copy changes nothing |
| SyncProperties.LoadedRecordSavesUnchanged | django_extensions/db/fields/utc.py:34-37 | a freshly loaded record with both datetimes present and naive and a known name saves with no conversion, no warning and no change |
| SyncProperties.UnknownTimezoneSettlesOnThirdSave | django_extensions/db/fields/utc.py:97 | after a save under an unknown name, the next save sees a timezone edit and recomputes the local datetime in UTC; the save after that fires no rule |
| Lifecycle.CommitAsWritten | django_extensions/db/fields/utc.py:101-103 | a whole save writes the fields as pre-save left them; the instance keeps the snapshot and `default_tz` pre-save left, and its datetimes become the snapshot's, stale or not |
| Lifecycle.ClearedRecordIsRestored | django_extensions/db/fields/utc.py:76-78 | when the database accepts the write, a record whose datetimes were cleared is written as absent, yet the instance afterwards holds the snapshot's old datetimes |
| Lifecycle.ClearedValuesReturnOnNextSave | django_extensions/db/fields/utc.py:101-103 | when the database accepts the writes, a loaded record that is cleared and saved twice has its old values written to the row again by the second save |
| Lifecycle.SyncedCommitAsWrittenIsStable | django_extensions/db/fields/utc.py:91-103 | after a save that synchronised the record under a known name, saving again writes the same row and leaves the same state |
| Lifecycle.RetriedSavesAsWrittenAgree | django_extensions/db/fields/utc.py:91-103 | as written, when a datetime is present and the name is known, any number of saves without edits ends where the first save did |
| Lifecycle.PreSaveCorrected | django_extensions/db/fields/utc.py:76-78 | like pre-save, but the snapshot always equals what is written, the unset case included |
| Lifecycle.Commit | django_extensions/db/fields/utc.py:95-103 | corrected save of the ## Findings row, not the source as written: a save writes what the pre-save step stores, and afterwards the instance holds exactly that row |
| Lifecycle.CommitIsStable | django_extensions/db/fields/utc.py:79-103 | corrected save of the ## Findings row, not the source as written: once a save has succeeded under a known name, saving again reproduces the same row and state |
| Lifecycle.RetriedSavesAgree | django_extensions/db/fields/utc.py:39-103 | corrected save of the ## Findings row, not the source as written: any number of saves without edits in between ends where the first save did |

## Left out

- The conversions `localtime_from_utc` and `utc_from_localtime` (utc.py:139-155) are left out, and so is their DST tie-break. They depend on pytz internals and on IANA rule data, so they are the uninterpreted `Env.toLocal` and `Env.toUtc`.
- The Django glue is left out: `__init__`, `get_internal_type`, `contribute_to_class`, the sub-fields, the injected properties and the signal wiring (utc.py:22-32, 106-137). This is framework plumbing. The `default_tz` keyword becomes the `DefaultTz` value passed to and returned by `PreSave`.
- The `pytz_exc` shim and the `TIMEZONES` choices (utc.py:13-19) are library plumbing. The timezone database is `Env.resolve`, and None stands for `UnknownTimeZoneError`.
- The encoding of a unicode `tz` to UTF-8 bytes (utc.py:68-69) is a Python 2 string-type detail. Names are compared as plain strings.
- `warnings.warn` is modelled as a returned list of `Warning` values.
- `settings.TIME_ZONE` is modelled as `Env.timeZone`. `Env.Valid` assumes it is non-empty. Django also accepts `TIME_ZONE = None`; that case is not modelled.
- Datetime equality is structural. Python compares two aware datetimes by instant, and Python 2 raises when a naive datetime is compared with an aware one. Neither is modelled.
- An absent timezone (None) and an empty one ("") are the same value. The source tests both with `not tz`, and it compares a timezone with the snapshot only after resolution has made it non-empty.
- Application callables are modelled as `Env.call`, a deterministic function of the callable's identity. Exceptions raised by such a callable, and exceptions from pytz other than an unknown name, are not modelled.
- The row write in `Lifecycle` accepts any values. It ignores the NOT NULL constraint that utc.py:110 puts on the `name_utc` column (`blank=True` without `null=True`), under which a strict database refuses to save a record with no UTC value and post-save never runs.
- Consistency of an unedited pair is not promised. The step converts only when a value was edited or is missing. It never re-checks that an unedited local datetime and UTC value agree in the zone, so a mismatched loaded row stays mismatched (`SyncProperties.UneditedMismatchIsKept`).
- DefaultTimezone.DefaultResolutionSettles: the "same name" part relies on `Env.call` being a pure function of the callable's identity. A real provider may answer differently on the next call.
- A `default_tz` that is neither a string nor callable is `NoDefault`. The source handles it like None.
- The intermediate writes at utc.py:81, 84, 87 and 90 are not modelled separately. Lines 95-99 overwrite them before the step returns, so the model writes only the final values.

## Findings

| source | as written | input that shows it | evidently intended | confidence | as-written member | corrected member |
|---|---|---|---|---|---|---|
| django_extensions/db/fields/utc.py:76-78 | An unset record returns before the snapshot is refreshed (lines 95-97). Post-save (lines 102-103) then copies the stale snapshot datetimes back onto the instance. | Load a record holding 2023-11-05 01:30 / 06:30 UTC in America/Chicago. Set both datetimes to None and save twice, on a database that accepts the write of the cleared record. The first save writes the cleared values. The second save writes the old values again. | The instance never shows datetimes the row does not hold. Because the `name_utc` column is NOT NULL, a strict database refuses the clearing write, and the instance then keeps None as well; so the defect shows only where the write goes through. | low, not executed | Lifecycle.ClearedRecordIsRestored | Lifecycle.Commit |
