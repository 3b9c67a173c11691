// The store's operations on directories where every system call may fail.
module AttachmentRuntime {
  import opened Options
  import opened AttachmentNames
  import opened AttachmentGrammar
  import opened AttachmentModel

  datatype LinkResult = Linked | LinkExists | LinkFailed

  // An open directory.  Each method is one system call and can fail; `faults`
  // counts the calls that did.
  class Dir {
    var entries: Folder
    ghost var faults: nat

    // A step that touches no entry: a context check, opening, syncing, closing.
    method Pass() returns (ok: bool)
      modifies this`faults
      ensures faults == old(faults) + if ok then 0 else 1
    {
      ok := *;
      faults := faults + if ok then 0 else 1;
    }

    method Create(name: string) returns (ok: bool)
      modifies this
      ensures ok ==> name !in old(entries) && entries == old(entries)[name := File([])]
      ensures !ok ==> entries == old(entries)
      ensures faults == old(faults) + if ok || name in old(entries) then 0 else 1
    {
      if name in entries { return false; }
      ok := Pass();
      if ok { entries := entries[name := File([])]; }
    }

    // Copy at most MAX_FILE_BYTES + 1 bytes; a failing copy leaves some prefix.
    method Copy(name: string, data: Bytes) returns (ok: bool, written: nat)
      requires name in entries
      modifies this
      ensures name in entries && entries[name].File? && entries == old(entries)[name := entries[name]]
      ensures ok ==> written == (if |data| <= MAX_FILE_BYTES then |data| else MAX_FILE_BYTES + 1)
      ensures ok ==> entries[name] == File(data[..written])
      ensures faults == old(faults) + if ok then 0 else 1
    {
      var limit := if |data| <= MAX_FILE_BYTES then |data| else MAX_FILE_BYTES + 1;
      written := limit;
      ok := Pass();
      if !ok { written :| 0 <= written <= limit; }
      entries := entries[name := File(data[..written])];
    }

    method Link(from: string, to: string) returns (r: LinkResult)
      requires from in entries
      modifies this
      ensures r.Linked? ==> to !in old(entries) && entries == old(entries)[to := old(entries)[from]]
      ensures r.LinkExists? ==> to in entries && entries == old(entries)
      ensures r.LinkFailed? ==> entries == old(entries)
      ensures faults == old(faults) + if r.LinkFailed? then 1 else 0
    {
      var ok := Pass();
      if !ok { return LinkFailed; }
      if to in entries { return LinkExists; }
      entries := entries[to := entries[from]];
      r := Linked;
    }

    method Rename(from: string, to: string) returns (ok: bool)
      requires from in entries && from != to
      modifies this
      ensures ok ==> entries == (old(entries) - {from})[to := old(entries)[from]]
      ensures !ok ==> entries == old(entries)
      ensures faults == old(faults) + if ok then 0 else 1
    {
      ok := Pass();
      if ok { entries := (entries - {from})[to := entries[from]]; }
    }

    // True also when there was nothing to remove.
    method Remove(name: string) returns (ok: bool)
      modifies this
      ensures ok ==> entries == old(entries) - {name}
      ensures !ok ==> entries == old(entries)
      ensures faults == old(faults) + if ok then 0 else 1
    {
      ok := Pass();
      if ok { entries := entries - {name}; }
    }
  }

  // Write to a fresh temporary, then commit it by link or rename.  The deferred
  // removal of the temporary may itself fail.  Only a fault, or a clash of the
  // random temporary's name, makes the write fail.
  method WriteReaderAtomic(dir: Dir, tmp: string, name: string, source: Bytes, replace: bool) returns (r: WriteResult)
    requires IsTemp(tmp) && ValidName(name)
    modifies dir
    ensures WriteRel(old(dir.entries), dir.entries, name, source, replace, r)
    ensures dir.faults >= old(dir.faults)
    ensures dir.faults == old(dir.faults) && tmp !in old(dir.entries) ==> !r.Failed? && tmp !in dir.entries
  {
    if IsTemp(name) { TempsAreNeverValid(name); }
    var ready := dir.Pass();  // context, directory, random name
    if !ready { return Failed; }
    var created := dir.Create(tmp);
    if !created { return Failed; }
    r := FillAndCommit(dir, tmp, name, source, replace);
    var _ := dir.Remove(tmp);
  }

  method FillAndCommit(dir: Dir, tmp: string, name: string, source: Bytes, replace: bool) returns (r: WriteResult)
    requires IsTemp(tmp) && !IsTemp(name) && tmp in dir.entries
    modifies dir
    ensures WriteRel(old(dir.entries), dir.entries, name, source, replace, r)
    ensures dir.faults >= old(dir.faults) && (r.Failed? ==> dir.faults > old(dir.faults))
  {
    var ok, written := dir.Copy(tmp, source);
    if !ok { return Failed; }
    if written == 0 { return Empty; }
    if written > MAX_FILE_BYTES { return TooLarge; }
    assert source[..written] == source;
    var synced := dir.Pass();
    if !synced { return Failed; }
    if !replace {
      var linked := dir.Link(tmp, name);
      if linked.LinkExists? { return Exists; }
      if linked.LinkFailed? { return Failed; }
      var _ := dir.Remove(tmp);
      return Written;
    }
    var renamed := dir.Rename(tmp, name);
    r := if renamed then Written else Failed;
  }

  // Put: canonical first, then the projection, and undo the first if the second
  // does not succeed.  Without a fault it stores exactly what it should.
  method Put(session: Dir, workspace: Dir, sessionOpens: bool, tmp: string, tmp': string, name: string, data: Bytes)
    returns (r: PutResult)
    requires session != workspace && IsTemp(tmp) && IsTemp(tmp')
    modifies session, workspace
    ensures PutRel(old(session.entries), session.entries, old(workspace.entries), workspace.entries, name, data, r)
    ensures session.faults >= old(session.faults) && workspace.faults >= old(workspace.faults)
    ensures (session.faults == old(session.faults) && workspace.faults == old(workspace.faults)
             && tmp !in old(session.entries) && tmp' !in old(workspace.entries)) ==>
      (r.Stored? <==> WellNamed(name) && 1 <= |data| <= 10 * 1024 * 1024 && sessionOpens
                      && name !in old(session.entries) && name !in old(workspace.entries))
    ensures r.Stored? ==> WellNamed(name)
  {
    ValidNameIff(name);
    if !ValidName(name) || |data| == 0 || |data| > MAX_FILE_BYTES || !sessionOpens { return Refused; }
    if IsTemp(name) { TempsAreNeverValid(name); }
    var canonical := WriteReaderAtomic(session, tmp, name, data, false);
    if !canonical.Written? { return Refused; }
    var projected := WriteReaderAtomic(workspace, tmp', name, data, false);
    if projected.Written? { return Stored; }
    var removed := session.Remove(name);
    if removed {
      return WorkspaceFailed;
    }
    r := RollbackFailed;
  }

  // ImportWorkspace once both directories are open: every worktree entry is
  // tried, in whatever order the listing gives.
  method ImportWorkspace(session: Dir, workspace: Dir, tmp: string) returns (ok: bool)
    requires session != workspace && IsTemp(tmp)
    modifies session
    ensures ImportRel(old(session.entries), session.entries, workspace.entries, ok)
    ensures session.faults == old(session.faults) && tmp !in old(session.entries) ==> ok
  {
    ghost var c, w := session.entries, workspace.entries;
    ghost var done: set<string> := {};
    var left := workspace.entries.Keys;
    while left != {}
      invariant left + done == w.Keys && workspace.entries == w
      invariant Imported(c, session.entries, w, done)
      invariant session.faults >= old(session.faults)
      invariant session.faults == old(session.faults) && tmp !in c ==> tmp !in session.entries
      decreases left
    {
      var name :| name in left;
      left := left - {name};
      var ready := session.Pass();  // context, open, read
      if !ready {
        return false;
      }
      if Usable(workspace.entries, name) {
        if IsTemp(name) { TempsAreNeverValid(name); }
        var r := WriteReaderAtomic(session, tmp, name, workspace.entries[name].bytes, false);
        if r.Failed? {
          assert Imported(c, session.entries, w, done);
          return false;
        }
      }
      done := done + {name};
    }
    ok := true;
  }

  // MaterializeWorkspace once the canonical directory is open.
  method MaterializeWorkspace(session: Dir, workspace: Dir, tmp: string) returns (ok: bool, materialized: bool)
    requires session != workspace && IsTemp(tmp)
    modifies workspace
    ensures MaterializeRel(session.entries, old(workspace.entries), workspace.entries, ok, materialized)
    ensures workspace.faults == old(workspace.faults) && tmp !in old(workspace.entries) ==> ok
  {
    ghost var c, w := session.entries, workspace.entries;
    ghost var done: set<string> := {};
    materialized := false;
    var left := session.entries.Keys;
    while left != {}
      invariant left + done == c.Keys && session.entries == c
      invariant Projected(c, w, workspace.entries, done)
      invariant materialized <==> exists n :: n in done && Usable(c, n)
      invariant workspace.faults >= old(workspace.faults)
      invariant workspace.faults == old(workspace.faults) && tmp !in w ==> tmp !in workspace.entries
      decreases left
    {
      var name :| name in left;
      left := left - {name};
      var ready := workspace.Pass();  // context, open, read
      if !ready {
        return false, false;
      }
      if Usable(session.entries, name) {
        if IsTemp(name) { TempsAreNeverValid(name); }
        var r := WriteReaderAtomic(workspace, tmp, name, session.entries[name].bytes, true);
        if !r.Written? {
          assert Projected(c, w, workspace.entries, done);
          return false, false;
        }
        materialized := true;
      }
      done := done + {name};
    }
    ok := true;
  }
}
