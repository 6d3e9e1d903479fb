/**
 * Whole saves: pre-save, the row write, post-save, in the order the ORM
 * runs them, and what repeated saves of one instance do.
 */
module Lifecycle {
  import opened Wrappers
  import opened FieldTypes
  import opened Sync

  /** What a save carries forward: the field's `default_tz` setting (one per
      field, shared by every instance of the model) and the instance. */
  datatype State = State(defaultTz: DefaultTz, record: Record)

  /** The state after a save and the values written to the row, which are
      the fields as the pre-save hook left them. */
  datatype Committed = Committed(state: State, row: Triple)

  /** One save exactly as the source performs it. */
  function CommitAsWritten(st: State, attrs: string -> Option<PyValue>, env: Env): (r: Result<Committed, SaveError>)
    requires env.Valid()
    ensures r.Failure? <==> PreSave(st.defaultTz, st.record, attrs, env).Failure?
    ensures r.Success? ==> r.value.row == PreSave(st.defaultTz, st.record, attrs, env).value.record.fields
    ensures r.Success? ==> r.value.state.record.fields.dt == r.value.state.record.snapshot.dt
    ensures r.Success? ==> r.value.state.record.fields.utc == r.value.state.record.snapshot.utc
    ensures r.Success? ==>
      && r.value.state.record.snapshot == PreSave(st.defaultTz, st.record, attrs, env).value.record.snapshot
      && r.value.state.defaultTz == PreSave(st.defaultTz, st.record, attrs, env).value.defaultTz
  {
    match PreSave(st.defaultTz, st.record, attrs, env)
    case Failure(e) => Failure(e)
    case Success(s) => Success(Committed(State(s.defaultTz, PostSave(s.record)), s.record.fields))
  }

  /** As written: saving a record whose two datetimes were cleared writes
      them as absent, but the early return skips the snapshot refresh, so the
      post-save hook puts the previously loaded values back on the instance. */
  lemma ClearedRecordIsRestored(st: State, attrs: string -> Option<PyValue>, env: Env)
    requires env.Valid()
    requires st.record.fields.dt.None? && st.record.fields.utc.None?
    requires CommitAsWritten(st, attrs, env).Success?
    ensures var c := CommitAsWritten(st, attrs, env).value;
      && c.row.dt.None? && c.row.utc.None?
      && c.state.record.fields.dt == st.record.snapshot.dt
      && c.state.record.fields.utc == st.record.snapshot.utc
  {
  }

  /** A concrete instance of the defect: a loaded record is cleared and saved
      twice; the first save writes nothing, the second writes the old values
      back to the row. */
  lemma ClearedValuesReturnOnNextSave()
    ensures
      var env := Env("UTC", _ => OtherValue, name => Some(TzInfo(name)), TzInfo("UTC"),
                     (d, z) => d, (d, z) => d);
      var local := DateTime(Clock(2023, 11, 5, 1, 30, 0, 0), None);
      var instant := DateTime(Clock(2023, 11, 5, 6, 30, 0, 0), None);
      var loaded := ModelInit(Triple(Some(local), Some(instant), "America/Chicago"));
      var cleared := loaded.(fields := loaded.fields.(dt := None, utc := None));
      var first := CommitAsWritten(State(NoDefault, cleared), _ => None, env);
      && first.Success?
      && first.value.row == Triple(None, None, "America/Chicago")
      && var second := CommitAsWritten(first.value.state, _ => None, env);
      && second.Success?
      && second.value.row == Triple(Some(local), Some(instant), "America/Chicago")
  {
  }

  /** As written, the defect is confined to the unset case: after a save that
      synchronised the record against a known timezone, saving again writes
      the same row and leaves the same state. */
  lemma SyncedCommitAsWrittenIsStable(st: State, attrs: string -> Option<PyValue>, env: Env)
    requires env.Valid()
    requires st.record.fields.dt.Some? || st.record.fields.utc.Some?
    requires PreSave(st.defaultTz, st.record, attrs, env).Success?
    requires env.resolve(PreSave(st.defaultTz, st.record, attrs, env).value.zoneName).Some?
    ensures var c := CommitAsWritten(st, attrs, env).value;
      CommitAsWritten(c.state, attrs, env) == Success(c)
  {
  }

  /** `n` saves of the same instance as the source performs them, with no
      edits in between. */
  function SavesAsWritten(n: nat, st: State, attrs: string -> Option<PyValue>, env: Env)
    : Result<Committed, SaveError>
    requires n >= 1
    requires env.Valid()
  {
    if n == 1 then CommitAsWritten(st, attrs, env)
    else
      match CommitAsWritten(st, attrs, env)
      case Failure(e) => Failure(e)
      case Success(c) => SavesAsWritten(n - 1, c.state, attrs, env)
  }

  /** As written, a retried save is safe when a datetime is present: any
      number of saves without edits ends where the first one did. */
  lemma {:induction false} RetriedSavesAsWrittenAgree(n: nat, st: State, attrs: string -> Option<PyValue>, env: Env)
    requires n >= 1
    requires env.Valid()
    requires st.record.fields.dt.Some? || st.record.fields.utc.Some?
    requires PreSave(st.defaultTz, st.record, attrs, env).Success?
    requires env.resolve(PreSave(st.defaultTz, st.record, attrs, env).value.zoneName).Some?
    ensures SavesAsWritten(n, st, attrs, env) == CommitAsWritten(st, attrs, env)
    decreases n
  {
    if n > 1 {
      var c := CommitAsWritten(st, attrs, env).value;
      SyncedCommitAsWrittenIsStable(st, attrs, env);
      RetriedSavesAsWrittenAgree(n - 1, c.state, attrs, env);
    }
  }

  /** The pre-save step with the unset case corrected: the snapshot is
      refreshed on every save, so it always matches what is written. All
      other behaviour is that of `PreSave`. */
  function PreSaveCorrected(d: DefaultTz, rec: Record, attrs: string -> Option<PyValue>, env: Env)
    : (r: Result<Saved, SaveError>)
    requires env.Valid()
    ensures r.Failure? <==> PreSave(d, rec, attrs, env).Failure?
    ensures r.Success? ==> r.value.record.snapshot == r.value.record.fields.(tz := r.value.zoneName)
    ensures r.Success? ==> r.value.record.fields == PreSave(d, rec, attrs, env).value.record.fields
    ensures r.Success? && r.value.decision != Unset ==> r == PreSave(d, rec, attrs, env)
  {
    match PreSave(d, rec, attrs, env)
    case Failure(e) => Failure(e)
    case Success(s) =>
      if s.decision == Unset then Success(s.(record := s.record.(snapshot := s.record.fields.(tz := s.zoneName))))
      else Success(s)
  }

  /** One save with the corrected pre-save step: the row is what the source
      writes, and afterwards the instance holds exactly that row. */
  function Commit(st: State, attrs: string -> Option<PyValue>, env: Env): (r: Result<Committed, SaveError>)
    requires env.Valid()
    ensures r.Failure? <==> PreSave(st.defaultTz, st.record, attrs, env).Failure?
    ensures r.Success? ==> r.value.row == PreSave(st.defaultTz, st.record, attrs, env).value.record.fields
    ensures r.Success? ==> r.value.state.record.fields == r.value.row
  {
    match PreSaveCorrected(st.defaultTz, st.record, attrs, env)
    case Failure(e) => Failure(e)
    case Success(s) => Success(Committed(State(s.defaultTz, PostSave(s.record)), s.record.fields))
  }

  /** `n` saves of the same instance in a row, with no edits in between. */
  function Saves(n: nat, st: State, attrs: string -> Option<PyValue>, env: Env): Result<Committed, SaveError>
    requires n >= 1
    requires env.Valid()
  {
    if n == 1 then Commit(st, attrs, env)
    else
      match Commit(st, attrs, env)
      case Failure(e) => Failure(e)
      case Success(c) => Saves(n - 1, c.state, attrs, env)
  }

  /** The timezone name a successful save worked with. */
  function SavedZone(st: State, attrs: string -> Option<PyValue>, env: Env): string
    requires env.Valid()
    requires PreSave(st.defaultTz, st.record, attrs, env).Success?
  {
    PreSave(st.defaultTz, st.record, attrs, env).value.zoneName
  }

  /** Once a save has succeeded with a known timezone, saving again without
      edits reproduces the same row and state, the unset case included. */
  lemma CommitIsStable(st: State, attrs: string -> Option<PyValue>, env: Env)
    requires env.Valid()
    requires PreSave(st.defaultTz, st.record, attrs, env).Success?
    requires env.resolve(SavedZone(st, attrs, env)).Some?
    ensures var c := Commit(st, attrs, env).value;
      && Commit(c.state, attrs, env) == Success(c)
      && PreSave(c.state.defaultTz, c.state.record, attrs, env).Success?
      && SavedZone(c.state, attrs, env) == SavedZone(st, attrs, env)
  {
  }

  /** A retried save is safe: any number of saves without edits in between
      ends where the first one did. */
  lemma {:induction false} RetriedSavesAgree(n: nat, st: State, attrs: string -> Option<PyValue>, env: Env)
    requires n >= 1
    requires env.Valid()
    requires PreSave(st.defaultTz, st.record, attrs, env).Success?
    requires env.resolve(SavedZone(st, attrs, env)).Some?
    ensures Saves(n, st, attrs, env) == Commit(st, attrs, env)
    decreases n
  {
    if n > 1 {
      var c := Commit(st, attrs, env).value;
      CommitIsStable(st, attrs, env);
      RetriedSavesAgree(n - 1, c.state, attrs, env);
    }
  }
}
