// internal/store/store.go: the state file, its backup, and what survives an interruption.
// A file holds an encoded state or something that does not decode.
module Store {
  import opened Model

  datatype Blob = Encoded(state: State) | Garbage

  datatype Files = Files(main: Option<Blob>, backup: Option<Blob>)

  datatype LoadError = Unreadable | Corrupt

  // How far a save gets before it fails or the machine stops. Temporary files are invisible, so the only
  // visible moments are the two renames.
  datatype Reach = BeforeBackup | AfterBackup | Complete

  function Fill(s: State): State {
    var s := if s.version == 0 then s.(version := STATE_VERSION) else s;
    var s := if s.nextPort == 0 then s.(nextPort := FIRST_PORT) else s;
    if s.nextOffset == 0 then s.(nextOffset := 1) else s
  }

  // loadLocked; the flags say whether the two files can be read.
  function LoadFrom(f: Files, mainReads: bool, backupReads: bool): Result<State, LoadError> {
    match f.main
    case None => Ok(NewState())
    case Some(blob) =>
      if !mainReads then Err(Unreadable)
      else match blob
        case Encoded(s) => Ok(Fill(s))
        case Garbage =>
          if backupReads && f.backup.Some? && f.backup.value.Encoded? then Ok(Fill(f.backup.value.state))
          else Err(Corrupt)
  }

  function Load(f: Files): Result<State, LoadError> {
    LoadFrom(f, true, true)
  }

  function Stamp(s: State): State {
    s.(version := STATE_VERSION)
  }

  // The files after a save of s that got this far.
  function Saved(f: Files, s: State, mainReads: bool, reach: Reach): Files {
    var copied := if f.main.Some? && mainReads then f.(backup := f.main) else f;
    match reach
    case BeforeBackup => f
    case AfterBackup => copied
    case Complete => copied.(main := Some(Encoded(Stamp(s))))
  }

  class Store {
    var main: Option<Blob>
    var backup: Option<Blob>

    function Contents(): Files
      reads this
    {
      Files(main, backup)
    }

    constructor (f: Files)
      ensures Contents() == f
    {
      main := f.main;
      backup := f.backup;
    }

    method LoadLocked(mainReads: bool, backupReads: bool) returns (r: Result<State, LoadError>)
      ensures r == LoadFrom(Contents(), mainReads, backupReads)
    {
      if main.None? {
        return Ok(NewState());
      }
      if !mainReads {
        return Err(Unreadable);
      }
      var state: State;
      if main.value.Garbage? {
        if !backupReads || backup.None? || backup.value.Garbage? {
          return Err(Corrupt);
        }
        state := backup.value.state;
      } else {
        state := main.value.state;
      }
      if state.version == 0 {
        state := state.(version := STATE_VERSION);
      }
      if state.nextPort == 0 {
        state := state.(nextPort := FIRST_PORT);
      }
      if state.nextOffset == 0 {
        state := state.(nextOffset := 1);
      }
      return Ok(state);
    }

    // The main file is copied to the backup when it can be read, then replaced; reach says where it stops.
    method SaveLocked(state: State, mainReads: bool, reach: Reach) returns (ok: bool)
      modifies this
      ensures ok <==> reach == Complete
      ensures Contents() == Saved(old(Contents()), state, mainReads, reach)
    {
      var stamped := state.(version := STATE_VERSION);
      if reach == BeforeBackup {
        return false;
      }
      if main.Some? && mainReads {
        backup := main;
      }
      if reach == AfterBackup {
        return false;
      }
      main := Some(Encoded(stamped));
      return true;
    }

    // Update: load, edit, save under one lock. A failed load or edit leaves both files alone.
    method Update(fn: State -> Option<State>, mainReads: bool, backupReads: bool,
        reach: Reach) returns (r: Option<State>)
      modifies this
      ensures var was := LoadFrom(old(Contents()), mainReads, backupReads);
              if was.Err? || fn(was.value).None? then r == None && Contents() == old(Contents())
              else
                && Contents() == Saved(old(Contents()), fn(was.value).value, mainReads, reach)
                && r == if reach == Complete then fn(was.value) else None
    {
      var loaded := LoadLocked(mainReads, backupReads);
      if loaded.Err? {
        return None;
      }
      var edited := fn(loaded.value);
      if edited.None? {
        return None;
      }
      var ok := SaveLocked(edited.value, mainReads, reach);
      return if ok then edited else None;
    }
  }

  // ---- crash safety ----

  predicate Decodable(f: Files) {
    f.main.None? || f.main.value.Encoded?
  }

  // One access to the store: a save, or an update by some edit, each stopped anywhere.
  datatype Access = SaveAccess(state: State, mainReads: bool, reach: Reach)
                 | UpdateAccess(edit: State -> Option<State>, mainReads: bool, reach: Reach)

  function Accessed(f: Files, e: Access): Files {
    match e
    case SaveAccess(s, readable, reach) => Saved(f, s, readable, reach)
    case UpdateAccess(edit, readable, reach) =>
      match LoadFrom(f, readable, true)
      case Err(_) => f
      case Ok(s) => match edit(s)
        case None => f
        case Some(s') => Saved(f, s', readable, reach)
  }

  function AllAccessed(f: Files, accesses: seq<Access>): Files {
    if accesses == [] then f else Accessed(AllAccessed(f, accesses[..|accesses| - 1]), accesses[|accesses| - 1])
  }

  // The same accesses on a single register that changes at once or not at all.
  function Register(r: State, present: bool, e: Access): (State, bool) {
    match e
    case SaveAccess(s, readable, reach) => if reach == Complete then (Fill(Stamp(s)), true) else (r, present)
    case UpdateAccess(edit, readable, reach) =>
      if (present && !readable) || edit(r).None? || reach != Complete then (r, present)
      else (Fill(Stamp(edit(r).value)), true)
  }

  function Registers(r: State, present: bool, accesses: seq<Access>): (State, bool) {
    if accesses == [] then (r, present)
    else
      var (r', p') := Registers(r, present, accesses[..|accesses| - 1]);
      Register(r', p', accesses[|accesses| - 1])
  }

  // However the accesses are interrupted, the store loads, and what it loads is the state of an atomic register:
  // the last state whose save reached its rename, with defaults filled in.
  lemma {:induction false} StoreIsAtomic(f: Files, accesses: seq<Access>)
    requires Decodable(f)
    ensures var g := AllAccessed(f, accesses);
            Decodable(g) && Load(g).Ok? && (Load(g).value, g.main.Some?) == Registers(Load(f).value, f.main.Some?, accesses)
  {
    if accesses != [] {
      StoreIsAtomic(f, accesses[..|accesses| - 1]);
    }
  }

  // After two complete saves, a corrupted main file costs one save and no more.
  lemma CorruptionCostsOneSave(f: Files, older: State, newer: State)
    ensures var g := Saved(Saved(f, older, true, Complete), newer, true, Complete);
            Load(g.(main := Some(Garbage))) == Ok(Fill(Stamp(older)))
  {
  }

  // A save over a corrupt main file copies the corruption over the backup first. If it stops between the two
  // renames nothing can be loaded; stopping anywhere else is harmless, and that is the only way to lose the state.
  lemma LostExactlyWhen(f: Files, s: State, mainReads: bool, reach: Reach)
    requires Load(f).Ok?
    ensures Load(Saved(f, s, mainReads, reach)).Err? <==> !Decodable(f) && mainReads && reach == AfterBackup
  {
  }

  // A state comes back from a complete save as it was, except that cursors that were never set take their first values;
  // a store that was never written gives the same first values.
  lemma SavedComesBack(f: Files, s: State, mainReads: bool, backupReads: bool)
    ensures LoadFrom(Saved(f, s, mainReads, Complete), true, backupReads)
         == Ok(State(1, s.publicIPv4, s.iface, s.prefix, if s.nextPort == 0 then 10000 else s.nextPort,
                     if s.nextOffset == 0 then 1 else s.nextOffset, s.token, s.proxies))
    ensures f.main == None ==> LoadFrom(f, mainReads, backupReads) == Ok(State(1, "", "", "", 10000, 1, "", []))
  {
  }

  // What a load does with the two files: an unreadable main file is an error, and the backup stands in only for one that
  // can be read but not decoded.
  lemma BackupStandsIn(f: Files, mainReads: bool, backupReads: bool)
    requires f.main.Some?
    ensures var r := LoadFrom(f, mainReads, backupReads);
            && (r == Err(Unreadable) <==> !mainReads)
            && (mainReads && f.main.value == Garbage ==>
                  r == if !backupReads then Err(Corrupt) else match f.backup
                       case Some(Encoded(s)) => LoadFrom(Files(f.backup, None), true, true)
                       case _ => Err(Corrupt))
            && (mainReads && f.main.value.Encoded? ==> r == LoadFrom(f.(backup := None), true, backupReads))
  {
  }

  // What is in the backup after a save: nothing new before its rename, then the main file as it was, if it could be read.
  lemma BackupIsPrevious(f: Files, s: State, mainReads: bool, reach: Reach)
    ensures var g := Saved(f, s, mainReads, reach);
            && g.backup == (if reach != BeforeBackup && mainReads && f.main.Some? then f.main else f.backup)
            && (reach != Complete ==> g.main == f.main)
  {
  }
}
