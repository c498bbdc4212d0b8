/** The sled-to-redb metadata migration: which files exist drives what opening does, and a crash
    (`if *`) may come after every durable action. */
module Migration {
  import opened Basics

  type Text = string                   // file bytes
  type Content = map<Text, Text>       // logical tables, all six flattened

  const BLOCKER: Text := "OOS-Lite redb: opening this metadata with sled is prohibited\n"

  /** A marker file: missing, holding the expected version text, or anything else. */
  datatype Marker = Missing | Current | Corrupt

  /** A redb file: created but without validated tables, or initialised. */
  datatype Database = Created | Ready(content: Content)

  datatype Outcome = Opened(content: Content) | Refused | Crashed

  /** What a directory held before the migration code first ran. */
  datatype Legacy = Legacy(conf: Option<Text>, sled: Option<Text>)

  class MetadataDir {
    /** Opening a sled directory: its settings and data files to its contents. */
    const readSled: (Text, Text) -> Content

    // earlier layout: the path itself is a redb file, with its marker and archive beside it
    var file: Option<Database>
    var fileMarker: Marker
    var archive: bool
    // nested layout
    var conf: Option<Text>
    var backup: Option<Text>           // conf.sled-backup
    var sled: Option<Text>             // db, blobs and snap.* files
    var migrating: Marker
    var committed: Marker
    var staging: Option<Database>
    var active: Option<Database>
    var corruptCopy: bool              // metadata.redb.corrupt
    // history
    ghost var latest: Content          // the last content committed, or the import still to be made
    ghost var imports: nat             // how often sled data was read

    constructor (read: (Text, Text) -> Content, legacy: Legacy)
      requires legacy.conf != Some(BLOCKER)
      ensures Tracks(legacy) && conf == legacy.conf && active == None && committed == Missing && imports == 0
      ensures latest == Import(legacy)
    {
      readSled := read;
      file, fileMarker, archive := None, Missing, false;
      conf, backup, sled := legacy.conf, None, legacy.sled;
      migrating, committed, staging, active, corruptCopy := Missing, Missing, None, None, false;
      latest := if legacy.sled.Some? && legacy.conf.Some? then read(legacy.conf.value, legacy.sled.value) else map[];
      imports := 0;
    }

    /** A database of the initial nested implementation, which wrote no commit marker. */
    constructor Nested(read: (Text, Text) -> Content, legacy: Legacy, content: Content)
      requires legacy.conf != Some(BLOCKER)
      ensures Tracks(legacy) && active == Some(Ready(content)) && latest == content && imports == 0
    {
      readSled := read;
      file, fileMarker, archive := None, Missing, false;
      conf, backup, sled := legacy.conf, None, legacy.sled;
      migrating, committed, staging, active, corruptCopy := Missing, Missing, None, Some(Ready(content)), false;
      latest, imports := content, 0;
    }

    /** What the first import yields: the legacy tables read with the legacy settings. */
    ghost function Import(legacy: Legacy): Content {
      if legacy.sled.Some? && legacy.conf.Some? then readSled(legacy.conf.value, legacy.sled.value) else map[]
    }

    /** Holds at every crash point of every opening. */
    ghost predicate Tracks(legacy: Legacy)
      reads this
    {
      && file == None && fileMarker == Missing && !archive && !corruptCopy
      && legacy.conf != Some(BLOCKER)
      // the original data is never touched, and the saved settings are never the blocker
      && sled == legacy.sled
      && (conf == legacy.conf || conf == Some(BLOCKER))
      && (backup == None || backup == legacy.conf)
      && (conf == Some(BLOCKER) ==> backup == legacy.conf)
      // publication
      && migrating != Corrupt && committed != Corrupt
      && (active != None ==> active == Some(Ready(latest)))
      && (active == None && committed == Current ==> staging == Some(Ready(latest)))
      && (active == None && committed == Missing ==>
            latest == Import(legacy) && (staging != None ==> migrating == Current))
    }

    /** The earlier layout, with a usable database. */
    ghost predicate FileLayout()
      reads this
    {
      file == Some(Ready(latest)) && fileMarker != Corrupt
    }

    /** An archive of the earlier layout without its database. */
    ghost predicate Ambiguous()
      reads this
    {
      file == None && fileMarker == Missing && archive
    }

    /** `block_sled`: save the settings, then replace them by the blocker. */
    method BlockSled(ghost legacy: Legacy) returns (r: Outcome)
      requires Tracks(legacy)
      modifies this`conf, this`backup
      ensures Tracks(legacy)
      ensures r.Opened? ==> conf == Some(BLOCKER) && backup == legacy.conf
      ensures r.Refused? ==> legacy.sled.Some? && legacy.conf.None?
    {
      if conf.Some? {
        if conf.value == BLOCKER { return Opened(map[]); }
        if * { return Crashed; }
        backup := conf;
      } else if sled.Some? && backup.None? {
        return Refused;
      }
      if * { return Crashed; }
      conf := Some(BLOCKER);
      if * { return Crashed; }
      return Opened(map[]);
    }

    /** Build the staging database from nothing: the only place legacy data is read. */
    method BuildStaging(ghost legacy: Legacy) returns (r: Outcome)
      requires Tracks(legacy) && active == None && committed == Missing && migrating == Current
      requires conf == Some(BLOCKER) && backup == legacy.conf
      modifies this`staging, this`imports
      ensures Tracks(legacy)
      ensures r.Opened? ==> staging == Some(Ready(latest))
      ensures r.Refused? ==> legacy.sled.Some? && legacy.conf.None?
    {
      if * { return Crashed; }
      if staging.Some? {
        staging := None;
        if * { return Crashed; }
      }
      var content: Content := map[];
      if sled.Some? {
        if backup.None? { return Refused; }
        content := readSled(backup.value, sled.value);
        imports := imports + 1;
      }
      staging := Some(Created);
      if * { return Crashed; }
      staging := Some(Ready(content));
      return Opened(content);
    }

    /** `open`, over every layout it knows. */
    method Open(ghost legacy: Legacy) returns (r: Outcome)
      requires Tracks(legacy) || FileLayout() || Ambiguous()
      modifies this
      ensures latest == old(latest) && sled == old(sled)
      ensures r.Opened? ==> r.content == latest
      ensures old(Tracks(legacy)) ==> Tracks(legacy) && Progresses(legacy, r)
      ensures old(FileLayout()) ==> FileLayout() && !r.Refused? && imports == old(imports)
      ensures old(Ambiguous()) ==> Ambiguous() && r.Refused? && imports == old(imports)
    {
      if file.Some? || fileMarker != Missing {
        r := OpenFile();
      } else if archive {
        r := Refused;
      } else {
        r := OpenNested(legacy);
      }
    }

    /** What one opening of the nested layout may do: it commits before it publishes, reads sled
        data only while nothing has been committed, and refuses only legacy data whose settings are
        missing. */
    twostate predicate Progresses(legacy: Legacy, r: Outcome)
      reads this
    {
      && (r.Opened? ==> active == Some(Ready(latest)) && committed == Current)
      && (r.Opened? ==> conf == Some(BLOCKER) && backup == legacy.conf)
      && (r.Refused? ==> legacy.sled.Some? && legacy.conf.None?)
      && (old(committed) == Current || old(active) != None ==> imports == old(imports))
      && (old(committed) == Current ==> committed == Current)
      && (old(active) != None ==> active == old(active))
      && (old(active) == None && active != None ==> committed == Current)
    }

    method OpenNested(ghost legacy: Legacy) returns (r: Outcome)
      requires Tracks(legacy)
      modifies this
      ensures latest == old(latest) && sled == old(sled)
      ensures r.Opened? ==> r.content == latest
      ensures Tracks(legacy) && Progresses(legacy, r)
    {
      if committed == Current {
        if active.None? && staging.Some? {
          if staging.value.Created? { return Refused; }
          if * { return Crashed; }
          active, staging := staging, None;
        }
        if active.None? || active.value.Created? { return Refused; }
        var content := active.value.content;
        r := BlockSled(legacy);
        if r.Opened? { r := Opened(content); }
        return;
      }
      if active.Some? {
        if active.value.Created? { return Refused; }
        var content := active.value.content;
        r := BlockSled(legacy);
        if !r.Opened? { return; }
        if * { return Crashed; }
        committed := Current;
        return Opened(content);
      }
      if migrating == Missing {
        if staging.Some? || corruptCopy { return Refused; }
        if * { return Crashed; }
        migrating := Current;
      }
      r := BlockSled(legacy);
      if !r.Opened? { return; }
      r := BuildStaging(legacy);
      if !r.Opened? { return; }
      if * { return Crashed; }
      committed := Current;
      if * { return Crashed; }
      active, staging := staging, None;
      return Opened(active.value.content);
    }

    /** The earlier file layout: adopted as it is, never rebuilt from the archive. */
    method OpenFile() returns (r: Outcome)
      modifies this`fileMarker
      ensures r.Opened? ==> file == Some(Ready(r.content)) && fileMarker == Current
      ensures r.Refused? ==> file.None? || file == Some(Created) || fileMarker == Corrupt
      ensures fileMarker == old(fileMarker) || fileMarker == Current
    {
      if file.None? || file.value.Created? { return Refused; }
      if fileMarker == Corrupt { return Refused; }
      if fileMarker == Missing {
        if * { return Crashed; }
        fileMarker := Current;
      }
      return Opened(file.value.content);
    }

    /** A committed transaction of the running engine. */
    method Write(ghost legacy: Legacy, content: Content)
      requires Tracks(legacy) && active != None
      modifies this`active, this`latest
      ensures Tracks(legacy) && latest == content && active == Some(Ready(content))
    {
      active, latest := Some(Ready(content)), content;
    }

    /** Any number of openings, from any state the migration can be in, each crashing anywhere or followed by
        transactions: every opening that completes sees what was committed last, which is the import while
        nothing is; sled data is as it was, and is not read again once anything is committed; and only
        settings missing from legacy data make one refuse. */
    method Lifetime(ghost legacy: Legacy, rounds: nat) returns (last: Outcome, ghost trace: seq<Seen>)
      requires Tracks(legacy)
      modifies this
      ensures Tracks(legacy) && sled == legacy.sled
      ensures Faithful(trace, old(latest))
      ensures old(committed) == Current || old(active) != None ==> imports == old(imports)
      ensures old(committed) == Current ==> committed == Current
      ensures last.Refused? ==> legacy.sled.Some? && legacy.conf.None?
    {
      last, trace := Crashed, [];
      ghost var first := latest;
      for i := 0 to rounds
        invariant Tracks(legacy)
        invariant last.Refused? ==> legacy.sled.Some? && legacy.conf.None?
        invariant Faithful(trace, first) && latest == Before(trace, |trace|, first)
        invariant old(committed) == Current ==> committed == Current
        invariant old(committed) == Current || old(active) != None ==>
                    imports == old(imports) && (committed == Current || active != None)
      {
        last := Open(legacy);
        if last.Opened? {
          Extended(trace, Read(last.content), first);
          trace := trace + [Read(last.content)];
          if * {
            var content: Content := *;
            Write(legacy, content);
            Extended(trace, Wrote(content), first);
            trace := trace + [Wrote(content)];
          }
        }
      }
    }
  }

  datatype Seen = Read(content: Content) | Wrote(content: Content)

  function Before(trace: seq<Seen>, i: nat, first: Content): Content
    requires i <= |trace|
  {
    if i == 0 then first else trace[i - 1].content
  }

  /** Every reading sees what the entry before it left. */
  predicate Faithful(trace: seq<Seen>, first: Content) {
    forall i :: 0 <= i < |trace| && trace[i].Read? ==> trace[i].content == Before(trace, i, first)
  }

  lemma Extended(trace: seq<Seen>, next: Seen, first: Content)
    requires Faithful(trace, first)
    requires next.Read? ==> next.content == Before(trace, |trace|, first)
    ensures Faithful(trace + [next], first)
  {
  }
}
