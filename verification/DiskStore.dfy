/** The disk store as an object: its methods take the file-system steps one by one, and any
    call may fail. Each is proved against the function that says what the operation does. */
module DiskStore {
  import opened Basics
  import opened Text
  import opened Maps
  import opened Accounting
  import opened DiskModel
  import opened Trails
  import S = StoreSpec
  import Q = Recovery
  import I = Invariants
  import E = Exact
  import opened Quota

  type Config = S.Config
  type Store = S.Store
  type Kind = S.Kind
  type Pause = S.Pause

  /** Six steps taken one after the other are the trail through their slots. */
  lemma TrailOf(t: seq<Disk>, d: Disk, id: Id, s: seq<Slot>)
    requires |s| == 6
    ensures t + [Patch(d, id, s[0])] + [Patch(d, id, s[1])] + [Patch(d, id, s[2])] + [Patch(d, id, s[3])]
              + [Patch(d, id, s[4])] + [Patch(d, id, s[5])]
            == t + Through(d, id, s)
  {}

  lemma SessionTrailOf(t: seq<Disk>, d: Disk, id: Id, s: seq<SessionDir>)
    requires |s| == 5
    ensures t + [PatchSession(d, id, Some(s[0]))] + [PatchSession(d, id, Some(s[1]))]
            + [PatchSession(d, id, Some(s[2]))]
              + [PatchSession(d, id, Some(s[3]))] + [PatchSession(d, id, Some(s[4]))]
            == t + ThroughSession(d, id, s)
  {}

  lemma CompleteTrailOf(t: seq<Disk>, d: Disk, id: Id, fileId: Id, f: File, u: Session)
    requires id in d.uploads && d.uploads[id].data.Some?
    ensures
      var s := CompleteTrail(d, id, fileId, f, u);
      t + [s[0]] + [s[1]] + [s[2]] + [s[3]] + [s[4]] + [s[5]] + [s[6]] == t + s
  {}

  /** The entries of a file and of a session are changed in either order. */
  lemma SlotThenSession(d: Disk, fileId: Id, s: Slot, id: Id, dir: Option<SessionDir>)
    ensures Patch(PatchSession(d, id, dir), fileId, s) == PatchSession(Patch(d, fileId, s), id, dir)
  {}

  lemma ShortTrailOf(t: seq<Disk>, d: Disk, id: Id, s: seq<SessionDir>)
    requires |s| == 4
    ensures t + [PatchSession(d, id, Some(s[0]))]
              + [PatchSession(d, id, Some(s[1]))] + [PatchSession(d, id, Some(s[2]))]
                + [PatchSession(d, id, Some(s[3]))]
            == t + ThroughSession(d, id, s)
  {}

  lemma {:induction false} SomeListing(names: set<Id>) returns (listing: seq<Id>)
    ensures S.Lists(listing, names)
    decreases |names|
  {
    listing := [];
    if names != {} {
      var id :| id in names;
      var rest := SomeListing(names - {id});
      listing := [id] + rest;
    }
  }

  lemma {:induction false} NothingExpires(cfg: Config, s: Store, listing: seq<Id>, now: int)
    requires cfg.ttl <= 0
    ensures S.SweepAll(cfg, s, listing, now) == s
  {
    if listing != [] {
      NothingExpires(cfg, s, listing[..|listing| - 1], now);
    }
  }

  lemma {:induction false} PurgeOneMore(s: Store, entries: seq<Id>, i: nat, olderThan: Option<int>, t: Store)
    requires i < |entries| && S.PurgeAll(s, entries[..i], olderThan) == (t, None)
    ensures S.PurgeAll(s, entries[..i + 1], olderThan)
            == if ReadTrash(t.disk, entries[i]).Err? then (t, Some(ReadTrash(t.disk, entries[i]).error))
               else (S.PurgeOne(t, entries[i], olderThan), None)
  {
    assert entries[..i + 1][..i] == entries[..i];
  }

  lemma {:induction false} SweepOneMore(cfg: Config, s: Store, entries: seq<Id>, i: nat, now: int)
    requires i < |entries|
    ensures S.SweepAll(cfg, s, entries[..i + 1], now)
            == S.SweepOne(cfg, S.SweepAll(cfg, s, entries[..i], now), entries[i], now)
  {
    assert entries[..i + 1][..i] == entries[..i];
  }

  /** What a sweep leaves of every session, in terms of its manifest. */
  lemma SweepKeeps(cfg: Config, s: Store, listing: seq<Id>, now: int)
    requires S.Lists(listing, s.disk.uploads.Keys)
    ensures
      var swept := S.SweepAll(cfg, s, listing, now).disk.uploads;
      forall id | id in s.disk.uploads ::
        && (id in swept <==>
              || cfg.ttl <= 0 || ReadSession(s.disk, id).Err?
              || (ReadSession(s.disk, id).value.status == Uploading
                  && now - ReadSession(s.disk, id).value.updatedAt < cfg.ttl))
        && (id in swept ==> swept[id] == s.disk.uploads[id])
  {
    var swept := S.SweepAll(cfg, s, listing, now).disk.uploads;
    forall id | id in s.disk.uploads
      ensures id in swept <==>
                || cfg.ttl <= 0 || ReadSession(s.disk, id).Err?
                || (ReadSession(s.disk, id).value.status == Uploading
                    && now - ReadSession(s.disk, id).value.updatedAt < cfg.ttl)
      ensures id in swept ==> swept[id] == s.disk.uploads[id]
    {
      Q.SweepRemovesExactly(cfg, s, listing, now, id);
    }
  }

  /** What a purge that comes to its end leaves of every entry, in terms of its record. */
  lemma PurgeKeeps(s: Store, listing: seq<Id>, olderThan: Option<int>)
    requires S.Lists(listing, s.disk.trash.Keys) && S.PurgeAll(s, listing, olderThan).1.None?
    ensures
      var left := S.PurgeAll(s, listing, olderThan).0.disk.trash;
      forall id | id in s.disk.trash ::
        && ReadTrash(s.disk, id).Ok?
        && (id in left <==> olderThan.Some? && olderThan.value < ReadTrash(s.disk, id).value.deletedAt.value)
  {
    var left := S.PurgeAll(s, listing, olderThan).0.disk.trash;
    forall id | id in s.disk.trash
      ensures ReadTrash(s.disk, id).Ok?
      ensures id in left <==> olderThan.Some? && olderThan.value < ReadTrash(s.disk, id).value.deletedAt.value
    {
      PurgeRemovesExactly(s, listing, olderThan, id);
    }
  }

  /** A purge that stops has met an entry that it cannot read. */
  lemma PurgeStops(s: Store, listing: seq<Id>, n: nat, olderThan: Option<int>)
    requires S.Lists(listing, s.disk.trash.Keys) && n <= |listing|
    requires S.PurgeAll(s, listing[..n], olderThan).1.Some?
    ensures exists id :: id in s.disk.trash && ReadTrash(s.disk, id).Err?
  {
    PurgeEndsIff(s, listing[..n], olderThan);
    var i :| 0 <= i < n && ReadTrash(s.disk, listing[..n][i]).Err?;
    assert listing[i] in listing;
  }

  /** Readiness, directory by directory. */
  predicate FileReady(s: Slot, id: Id) {
    (s.content.Some? <==> s.manifest.Some?) && (s.manifest.Some? ==> GoodFile(s.manifest.value, id))
  }

  predicate TrashReady(dir: TrashDir, id: Id) {
    dir.manifestTmp.None? && ReadTrashDir(dir, id).Ok?
  }

  lemma ReadyInParts(d: Disk)
    ensures Ready(d)
            <==> && !d.probe && d.parts.Keys == {} && d.manifestTmps == map[]
                 && (forall id :: FileReady(View(d, id), id))
                 && (forall id | id in d.trash :: TrashReady(d.trash[id], id))
                 && (forall id | id in d.uploads :: SessionReady(d.uploads[id], id))
  {
    if Ready(d) {
      forall id ensures id !in d.parts && id !in d.manifestTmps && FileReady(View(d, id), id)
                ensures id in d.trash ==> TrashReady(d.trash[id], id)
      {
        assert SlotReady(View(d, id), id);
      }
    }
    if d.parts.Keys == {} && d.manifestTmps == map[] && (forall id :: FileReady(View(d, id), id))
       && forall id | id in d.trash :: TrashReady(d.trash[id], id)
    {
      forall id ensures SlotReady(View(d, id), id) {
        assert FileReady(View(d, id), id) && id !in d.parts;
      }
    }
  }

  ghost predicate FilesRescan(d: Disk) {
    (forall id | id in d.manifests :: ReadFile(d, id).Ok?) && Fits(FileCharges(d))
  }

  ghost predicate TrashRescan(d: Disk) {
    (forall id | id in d.trash :: ReadTrash(d, id).Ok?) && Fits(TrashCharges(d))
  }

  ghost predicate UploadsRescan(d: Disk) {
    (forall id | id in d.uploads :: ReadSession(d, id).Ok?) && Fits(UploadCharges(d))
  }

  /** The charges of the records a rescan has seen. */
  ghost predicate PartOf(part: Charges<Id, Owner>, c: Charges<Id, Owner>, todo: set<Id>) {
    && (forall id :: id in part <==> id in c && id !in todo)
    && (forall id | id in part :: part[id] == c[id])
  }

  /** If the records seen so far overflow, and every other one has a size, so do they all. */
  lemma OverflowIsFinal(part: Charges<Id, Owner>, c: Charges<Id, Owner>, id: Id, todo: set<Id>)
    requires PartOf(part, c, todo) && id in c && id in todo
    requires BytesOf(part[id := c[id]], c[id].owner) > MAX_INT64
    ensures !(NonNegative(c) && Fits(c))
  {
    if NonNegative(c) {
      SumMonotone(part[id := c[id]], c, BytesFor(c[id].owner));
      assert BytesOf(c, c[id].owner) > MAX_INT64;
    }
  }

  // ---------------------------------------------------------------- the trails of the loops

  /** The directory after a part of a sweep or a purge. */
  ghost predicate SweptTo(cfg: Config, s: Store, listing: seq<Id>, now: int, e: Disk) {
    exists n: nat :: n <= |listing| && e == S.SweepAll(cfg, s, listing[..n], now).disk
  }

  ghost predicate PurgedTo(s: Store, listing: seq<Id>, olderThan: Option<int>, e: Disk) {
    exists n: nat :: n <= |listing| && e == S.PurgeAll(s, listing[..n], olderThan).0.disk
  }

  ghost predicate SweepTrail(was: seq<Disk>, now: seq<Disk>, cfg: Config, s: Store, listing: seq<Id>, at: int) {
    was <= now && forall i | |was| <= i < |now| :: SweptTo(cfg, s, listing, at, now[i])
  }

  ghost predicate PurgeTrail(was: seq<Disk>, now: seq<Disk>, s: Store, listing: seq<Id>, olderThan: Option<int>) {
    was <= now && forall i | |was| <= i < |now| :: PurgedTo(s, listing, olderThan, now[i])
  }

  lemma SweepTrailGrows(was: seq<Disk>, now: seq<Disk>, cfg: Config, s: Store, listing: seq<Id>, at: int, n: nat)
    requires SweepTrail(was, now, cfg, s, listing, at) && n <= |listing|
    ensures SweepTrail(was, now + [S.SweepAll(cfg, s, listing[..n], at).disk], cfg, s, listing, at)
  {
    assert SweptTo(cfg, s, listing, at, S.SweepAll(cfg, s, listing[..n], at).disk);
  }

  /** What Recover passes through before its sweep. */
  ghost predicate CleanTrail(was: seq<Disk>, now: seq<Disk>, d: Disk) {
    was <= now && forall i | |was| <= i < |now| :: Q.PartlyCleaned(d, now[i])
  }

  lemma CleanTrailGrows(was: seq<Disk>, now: seq<Disk>, d: Disk, e: Disk)
    requires CleanTrail(was, now, d) && Q.PartlyCleaned(d, e)
    ensures CleanTrail(was, now + [e], d)
  {}

  lemma CleanTrails(was: seq<Disk>, middle: seq<Disk>, now: seq<Disk>, d: Disk)
    requires CleanTrail(was, middle, d) && CleanTrail(middle, now, d)
    ensures CleanTrail(was, now, d)
  {
    forall i | |was| <= i < |now| ensures Q.PartlyCleaned(d, now[i]) {
      if i < |middle| {
        assert now[i] == middle[i];
      }
    }
  }

  ghost predicate RecoverTrail(was: seq<Disk>, now: seq<Disk>, cfg: Config, s: Store, listing: seq<Id>, at: int) {
    was <= now && forall i | |was| <= i < |now| ::
      || Q.PartlyCleaned(s.disk, now[i])
      || (Q.CanQuarantine(s.disk, at) && SweptTo(cfg, s.(disk := Q.Cleaned(s.disk, at)), listing, at, now[i]))
  }

  lemma RecoverTrailOf(
    was: seq<Disk>, middle: seq<Disk>, now: seq<Disk>, cfg: Config, s: Store, listing: seq<Id>, at: int)
    requires CleanTrail(was, middle, s.disk)
    requires middle == now || (Q.CanQuarantine(s.disk, at)
                               && SweepTrail(middle, now, cfg, s.(disk := Q.Cleaned(s.disk, at)), listing, at))
    ensures RecoverTrail(was, now, cfg, s, listing, at)
  {
    forall i | |was| <= i < |now|
      ensures Q.PartlyCleaned(s.disk, now[i])
              || (Q.CanQuarantine(s.disk, at) && SweptTo(cfg, s.(disk := Q.Cleaned(s.disk, at)), listing, at, now[i]))
    {
      if i < |middle| {
        assert now[i] == middle[i];
      } else {
        assert SweptTo(cfg, s.(disk := Q.Cleaned(s.disk, at)), listing, at, now[i]);
      }
    }
  }

  /** The loop over uploads/ after its first n entries, with its counters. */
  ghost predicate KeptSoFar(
    before: map<Id, SessionDir>, after: map<Id, SessionDir>, entries: seq<Id>, n: nat, staged: int, bare: int)
  {
    && n <= |entries| && after == Q.KeptUpTo(before, entries, n)
    && staged == |Q.StagedSessions(before)| - |Q.StagedSessions(after)|
    && bare == |Q.BareSessions(before)| - |Q.BareSessions(after)|
  }

  ghost predicate AllTidy(uploads: map<Id, SessionDir>) {
    forall id | id in uploads :: Q.TidyDir(uploads[id])
  }

  lemma NothingKeptYet(uploads: map<Id, SessionDir>, entries: seq<Id>)
    ensures KeptSoFar(uploads, uploads, entries, 0, 0, 0)
  {
    assert Q.KeptUpTo(uploads, entries, 0) == uploads;
  }

  lemma AllKept(before: map<Id, SessionDir>, after: map<Id, SessionDir>, entries: seq<Id>, staged: int, bare: int)
    requires S.Lists(entries, before.Keys) && KeptSoFar(before, after, entries, |entries|, staged, bare)
    ensures after == Q.KeptSessions(before) && staged == |Q.StagedSessions(before)| && bare == |Q.BareSessions(before)|
  {
    Q.KeptAll(before, entries);
  }

  class DiskStore {
    const cfg: Config
    var disk: Disk
    var usage: S.Usage
    var usageValid: bool
    var loaded: bool
    var loadFailed: bool
    // Whether file-system calls may fail; nothing here changes it.
    const mayFail: bool
    // The directory after every step taken so far.
    ghost var trail: seq<Disk>

    ghost function State(): Store
      reads this
    {
      S.Store(disk, usage, usageValid, loaded, loadFailed)
    }

    constructor (cfg: Config, d: Disk, mayFail: bool)
      ensures State() == S.Opened(d) && this.cfg == cfg && this.mayFail == mayFail && trail == []
    {
      this.cfg, this.mayFail, disk, trail := cfg, mayFail, d, [];
      usage, usageValid, loaded, loadFailed := S.NO_USAGE, false, false, false;
    }

    // -------------------------------------------------------------- the file system

    /** A call that can fail for reasons of its own. */
    method Call() returns (ok: bool)
      ensures !mayFail ==> ok
    {
      ok := true;
      if mayFail { ok := *; }
    }

    /** One step on the entries of a file identifier; nothing happens when it fails. */
    method Attempt(ghost p: Path, id: Id, ghost was: Slot, s: Slot) returns (ok: bool)
      requires p.id == id && OnPath(p, trail) && s in p.slots && disk == Patch(p.base, id, was)
      modifies this`disk, this`trail
      ensures ok ==> disk == Patch(p.base, id, s) && trail == old(trail) + [disk]
      ensures !ok ==> disk == old(disk) && trail == old(trail)
      ensures OnPath(p, trail)
      ensures !mayFail ==> ok
    {
      ok := Call();
      if ok { Clean(p, id, was, s); }
    }

    /** The same for cleanup calls, whose errors the source ignores. */
    method Clean(ghost p: Path, id: Id, ghost was: Slot, s: Slot)
      requires p.id == id && OnPath(p, trail) && s in p.slots && disk == Patch(p.base, id, was)
      modifies this`disk, this`trail
      ensures disk == Patch(p.base, id, s) && trail == old(trail) + [disk]
      ensures OnPath(p, trail)
    {
      PatchPatch(p.base, id, was, s);
      OneStepOn(p, trail, s);
      disk := Patch(disk, id, s);
      trail := trail + [disk];
    }

    /** The last rename of a manifest, which may lead off the path. */
    method Commit(ghost p: Path, id: Id, ghost was: Slot, s: Slot) returns (ok: bool)
      requires p.id == id && OnPath(p, trail) && disk == Patch(p.base, id, was)
      modifies this`disk, this`trail
      ensures ok ==> disk == Patch(p.base, id, s) && trail == old(trail) + [disk]
      ensures !ok ==> disk == old(disk) && trail == old(trail)
      ensures !ok || s in p.slots ==> OnPath(p, trail)
      ensures !mayFail ==> ok
    {
      ok := Call();
      if ok {
        PatchPatch(p.base, id, was, s);
        if s in p.slots { OneStepOn(p, trail, s); }
        disk := Patch(disk, id, s);
        trail := trail + [disk];
      }
    }

    method AttemptSession(ghost p: SessionPath, id: Id, ghost was: Option<SessionDir>, dir: Option<SessionDir>)
      returns (ok: bool)
      requires p.id == id && OnSessionPath(p, trail) && dir in p.dirs && disk == PatchSession(p.base, id, was)
      modifies this`disk, this`trail
      ensures ok ==> disk == PatchSession(p.base, id, dir) && trail == old(trail) + [disk]
      ensures !ok ==> disk == old(disk) && trail == old(trail)
      ensures OnSessionPath(p, trail)
      ensures !mayFail ==> ok
    {
      ok := Call();
      if ok { CleanSession(p, id, was, dir); }
    }

    method CleanSession(ghost p: SessionPath, id: Id, ghost was: Option<SessionDir>, dir: Option<SessionDir>)
      requires p.id == id && OnSessionPath(p, trail) && dir in p.dirs && disk == PatchSession(p.base, id, was)
      modifies this`disk, this`trail
      ensures disk == PatchSession(p.base, id, dir) && trail == old(trail) + [disk]
      ensures OnSessionPath(p, trail)
    {
      PatchSessionTwice(p.base, id, was, dir);
      OneSessionStepOn(p, trail, dir);
      disk := PatchSession(disk, id, dir);
      trail := trail + [disk];
    }

    method CommitSession(ghost p: SessionPath, id: Id, ghost was: Option<SessionDir>, dir: Option<SessionDir>)
      returns (ok: bool)
      requires p.id == id && OnSessionPath(p, trail) && disk == PatchSession(p.base, id, was)
      modifies this`disk, this`trail
      ensures ok ==> disk == PatchSession(p.base, id, dir) && trail == old(trail) + [disk]
      ensures !ok ==> disk == old(disk) && trail == old(trail)
      ensures !ok || dir in p.dirs ==> OnSessionPath(p, trail)
      ensures !mayFail ==> ok
    {
      ok := Call();
      if ok {
        PatchSessionTwice(p.base, id, was, dir);
        if dir in p.dirs { OneSessionStepOn(p, trail, dir); }
        disk := PatchSession(disk, id, dir);
        trail := trail + [disk];
      }
    }

    /** writeManifest in metadata/: exclusive temporary file, contents, rename; a failure
        removes the temporary file. */
    method WriteManifest(ghost p: Path, id: Id, s: Slot, f: File) returns (ok: bool)
      requires p.id == id && OnPath(p, trail) && StagedSteps(s, f) <= p.slots && disk == Patch(p.base, id, s)
      modifies this`disk, this`trail
      ensures ok ==> && disk == Patch(p.base, id, s.(manifest := Some(f))) && s.manifestTmp.None?
                     && trail == old(trail) + [Patch(p.base, id, s.(manifestTmp := Some(Torn)))]
                                 + [Patch(p.base, id, s.(manifestTmp := Some(Whole(f))))] + [disk]
                     && OnPath(p, trail[..|trail| - 1])
      ensures !ok ==> disk == old(disk)
      ensures !ok || s.(manifest := Some(f)) in p.slots ==> OnPath(p, trail)
      ensures !mayFail ==> (ok <==> s.manifestTmp.None?)
    {
      if s.manifestTmp.Some? { return false; }
      ok := Attempt(p, id, s, s.(manifestTmp := Some(Torn)));
      if !ok { return; }
      ok := Attempt(p, id, s.(manifestTmp := Some(Torn)), s.(manifestTmp := Some(Whole(f))));
      if !ok { Clean(p, id, s.(manifestTmp := Some(Torn)), s); return; }
      ghost var staged := trail;
      ok := Commit(p, id, s.(manifestTmp := Some(Whole(f))), s.(manifest := Some(f)));
      if !ok { Clean(p, id, s.(manifestTmp := Some(Whole(f))), s); return; }
      assert trail[..|trail| - 1] == staged;
    }

    /** writeManifest inside a trash entry. */
    method WriteTrashManifest(ghost p: Path, id: Id, s: Slot, f: File) returns (ok: bool)
      requires s.trash.Some? && TrashManifestSteps(s, f) <= p.slots
      requires p.id == id && OnPath(p, trail) && disk == Patch(p.base, id, s)
      modifies this`disk, this`trail
      ensures ok ==>
        var dir := s.trash.value;
        && disk == Patch(p.base, id, s.(trash := Some(dir.(manifest := Some(f))))) && dir.manifestTmp.None?
        && trail == old(trail) + [Patch(p.base, id, s.(trash := Some(dir.(manifestTmp := Some(Torn)))))]
                    + [Patch(p.base, id, s.(trash := Some(dir.(manifestTmp := Some(Whole(f))))))] + [disk]
      ensures !ok ==> disk == old(disk)
      ensures OnPath(p, trail)
      ensures !mayFail ==> (ok <==> s.trash.value.manifestTmp.None?)
    {
      var dir := s.trash.value;
      if dir.manifestTmp.Some? { return false; }
      var torn := s.(trash := Some(dir.(manifestTmp := Some(Torn))));
      var whole := s.(trash := Some(dir.(manifestTmp := Some(Whole(f)))));
      ok := Attempt(p, id, s, torn);
      if !ok { return; }
      ok := Attempt(p, id, torn, whole);
      if !ok { Clean(p, id, torn, s); return; }
      ok := Attempt(p, id, whole, s.(trash := Some(dir.(manifest := Some(f)))));
      if !ok { Clean(p, id, whole, s); }
    }

    /** writeUploadManifest */
    method WriteUploadManifest(ghost p: SessionPath, id: Id, dir: SessionDir, u: Session) returns (ok: bool)
      requires p.id == id && OnSessionPath(p, trail) && StagedUploadSteps(dir, u) <= p.dirs
      requires disk == PatchSession(p.base, id, Some(dir))
      modifies this`disk, this`trail
      ensures ok ==> && disk == PatchSession(p.base, id, Some(dir.(manifest := Some(u)))) && dir.manifestTmp.None?
                     && trail == old(trail) + [PatchSession(p.base, id, Some(dir.(manifestTmp := Some(Torn))))]
                                 + [PatchSession(p.base, id, Some(dir.(manifestTmp := Some(Whole(u)))))] + [disk]
                     && OnSessionPath(p, trail[..|trail| - 1])
      ensures !ok ==> disk == old(disk)
      ensures !ok || Some(dir.(manifest := Some(u))) in p.dirs ==> OnSessionPath(p, trail)
      ensures !mayFail ==> (ok <==> dir.manifestTmp.None?)
    {
      if dir.manifestTmp.Some? { return false; }
      var torn, whole := dir.(manifestTmp := Some(Torn)), dir.(manifestTmp := Some(Whole(u)));
      ok := AttemptSession(p, id, Some(dir), Some(torn));
      if !ok { return; }
      ok := AttemptSession(p, id, Some(torn), Some(whole));
      if !ok { CleanSession(p, id, Some(torn), Some(dir)); return; }
      ghost var staged := trail;
      ok := CommitSession(p, id, Some(whole), Some(dir.(manifest := Some(u))));
      if !ok { CleanSession(p, id, Some(whole), Some(dir)); return; }
      assert trail[..|trail| - 1] == staged;
    }

    // -------------------------------------------------------------- the usage index

    /** moveUsage */
    method MoveUsage(owner: Owner, from: Option<Kind>, to: Option<Kind>, size: int)
      modifies this`usage
      ensures State() == S.Moved(old(State()), owner, from, to, size)
    {
      if !usageValid || size <= 0 { return; }
      if from.Some? { TakeFrom(from.value, owner, size); }
      if to.Some? { GiveTo(to.value, owner, size); }
    }

    method TakeFrom(kind: Kind, owner: Owner, size: int)
      requires size > 0
      modifies this`usage
      ensures usage == S.Set(old(usage), kind, Released(S.Get(old(usage), kind), owner, size))
    {
      var bucket := S.Get(usage, kind);
      var entry := Entry(Wrap(At(bucket, owner).bytes - size), At(bucket, owner).records - 1);
      if entry.bytes <= 0 {
        usage := S.Set(usage, kind, bucket - {owner});
      } else {
        if entry.records < 0 { entry := entry.(records := 0); }
        usage := S.Set(usage, kind, bucket[owner := entry]);
      }
    }

    method GiveTo(kind: Kind, owner: Owner, size: int)
      requires size > 0
      modifies this`usage
      ensures usage == S.Set(old(usage), kind, Charged(S.Get(old(usage), kind), owner, size))
    {
      var bucket := S.Get(usage, kind);
      var entry := Entry(Wrap(At(bucket, owner).bytes + size), At(bucket, owner).records + 1);
      usage := S.Set(usage, kind, bucket[owner := entry]);
    }

    /** The closure of the rescan that adds one record, with its overflow check. */
    method AddRecord(bucket: Bucket<Owner>, ghost c: Charges<Id, Owner>, ghost id: Id, x: Charge<Owner>)
      returns (b: Bucket<Owner>, ok: bool)
      requires bucket == Rescan(c) && Fits(c) && id !in c && x.size >= 0
      ensures ok <==> BytesOf(c[id := x], x.owner) <= MAX_INT64
      ensures ok ==> b == Rescan(c[id := x]) && Fits(c[id := x])
    {
      RescanAddFits(c, id, x);
      RescanAdd(c, id, x);
      var current := At(bucket, x.owner);
      if current.bytes > MAX_INT64 - x.size { return bucket, false; }
      return bucket[x.owner := Joined(current, x.size)], true;
    }

    method RescanFiles() returns (bucket: Bucket<Owner>, ok: bool)
      ensures ok <==> FilesRescan(disk)
      ensures ok ==> bucket == Rescan(FileCharges(disk))
    {
      bucket := map[];
      var todo := disk.manifests.Keys;
      ghost var part: Charges<Id, Owner> := map[];
      assert bucket == Rescan(part);
      while todo != {}
        invariant PartOf(part, FileCharges(disk), todo) && todo <= disk.manifests.Keys
        invariant bucket == Rescan(part) && Fits(part)
        invariant forall id | id in disk.manifests && id !in todo :: ReadFile(disk, id).Ok?
      {
        var id :| id in todo;
        if ReadFile(disk, id).Err? { return bucket, false; }
        var x := FileCharge(disk.manifests[id]).value;
        bucket, ok := AddRecord(bucket, part, id, x);
        if !ok {
          OverflowIsFinal(part, FileCharges(disk), id, todo);
          return;
        }
        part := part[id := x];
        todo := todo - {id};
      }
      Extensional(part, FileCharges(disk));
      ok := true;
    }

    method RescanTrash() returns (bucket: Bucket<Owner>, ok: bool)
      ensures ok <==> TrashRescan(disk)
      ensures ok ==> bucket == Rescan(TrashCharges(disk))
    {
      bucket := map[];
      var todo := disk.trash.Keys;
      ghost var part: Charges<Id, Owner> := map[];
      assert bucket == Rescan(part);
      while todo != {}
        invariant PartOf(part, TrashCharges(disk), todo) && todo <= disk.trash.Keys
        invariant bucket == Rescan(part) && Fits(part)
        invariant forall id | id in disk.trash && id !in todo :: ReadTrash(disk, id).Ok?
      {
        var id :| id in todo;
        if ReadTrash(disk, id).Err? { return bucket, false; }
        var x := TrashCharge(disk.trash[id]).value;
        bucket, ok := AddRecord(bucket, part, id, x);
        if !ok {
          OverflowIsFinal(part, TrashCharges(disk), id, todo);
          return;
        }
        part := part[id := x];
        todo := todo - {id};
      }
      Extensional(part, TrashCharges(disk));
      ok := true;
    }

    method RescanUploads() returns (bucket: Bucket<Owner>, ok: bool)
      ensures ok <==> UploadsRescan(disk)
      ensures ok ==> bucket == Rescan(UploadCharges(disk))
    {
      bucket := map[];
      var todo := disk.uploads.Keys;
      ghost var part: Charges<Id, Owner> := map[];
      assert bucket == Rescan(part);
      while todo != {}
        invariant PartOf(part, UploadCharges(disk), todo) && todo <= disk.uploads.Keys
        invariant bucket == Rescan(part) && Fits(part)
        invariant forall id | id in disk.uploads && id !in todo :: ReadSession(disk, id).Ok?
      {
        var id :| id in todo;
        if ReadSession(disk, id).Err? { return bucket, false; }
        // A completed session holds no reservation.
        if ReadSession(disk, id).value.status.Uploading? {
          var x := UploadCharge(disk.uploads[id]).value;
          bucket, ok := AddRecord(bucket, part, id, x);
          if !ok {
            OverflowIsFinal(part, UploadCharges(disk), id, todo);
            return;
          }
          part := part[id := x];
        }
        todo := todo - {id};
      }
      Extensional(part, UploadCharges(disk));
      ok := true;
    }

    /** rebuildUsageLocked */
    method RebuildUsage() returns (failed: bool)
      modifies this`usage, this`usageValid
      ensures (State(), failed) == S.Rebuild(old(State()))
    {
      var files, ok := RescanFiles();
      if !ok { return true; }
      var trash, uploads;
      trash, ok := RescanTrash();
      if !ok { return true; }
      uploads, ok := RescanUploads();
      if !ok { return true; }
      usage, usageValid := S.Usage(files, trash, uploads), true;
      return false;
    }

    /** ensureUsageLocked: sync.Once keeps the error of the only attempt. */
    method EnsureUsage() returns (failed: bool)
      modifies this`usage, this`usageValid, this`loaded, this`loadFailed
      ensures State() == S.Load(old(State())) && failed == loadFailed
    {
      if !loaded {
        loadFailed := RebuildUsage();
        loaded := true;
      }
      failed := loadFailed;
    }

    /** writesPausedUnlocked */
    method CheckPaused(pause: Pause) returns (stop: Option<Error>)
      modifies this`usage, this`usageValid, this`loaded, this`loadFailed
      ensures (State(), stop) == S.PauseGate(old(State()), pause)
    {
      if pause.Off? { return None; }
      var failed := EnsureUsage();
      if failed { return Some(UsageUnavailable); }
      stop := if pause.exceeded then Some(StoragePaused) else None;
    }

    // -------------------------------------------------------------- Put

    /** All or nothing under every error: either the file is stored by the six steps of the
        trail, or the directory is as it was; and at every step in between, forward or back, the
        file is visible completely or not at all. */
    method Put(pause: Pause, id: Id, body: Body, info: Info, now: int) returns (r: Outcome<File>)
      modifies this
      ensures r != Err(Io) || !mayFail ==> (State(), r) == S.Put(cfg, old(State()), pause, id, body, info, now)
      ensures r == Err(Io) ==> State() == S.Load(old(State()))
      ensures r.Ok? ==> trail == old(trail) + Through(old(disk), id, PutSlots(body.bytes, r.value))
      ensures r.Ok? ==> |trail| > |old(trail)| && trail[|trail| - 1] == disk
      ensures
        var before := if r.Ok? then trail[..|trail| - 1] else trail;
        PutOnTheWay(old(trail), before, old(disk), id, body.bytes, S.NewFile(cfg, id, body.bytes, info, now))
      ensures forall i | |old(trail)| <= i < |trail| :: NeverHalf(cfg.sha, old(disk), id, trail[i])
      ensures trail == old(trail) || View(old(disk), id).(manifestTmp := None) == VACANT
    {
      NothingOnTheWay(trail, disk, id, body.bytes, S.NewFile(cfg, id, body.bytes, info, now));
      var stop := OpenForPut(pause);
      if stop.Some? { return Err(stop.value); }
      r := StoreFile(id, body, info, now);
    }

    /** The pause check and the load in front of it. */
    method OpenForPut(pause: Pause) returns (stop: Option<Error>)
      modifies this`usage, this`usageValid, this`loaded, this`loadFailed
      ensures
        var (gated, why) := S.PauseGate(old(State()), pause);
        if why.Some? then stop == why && State() == gated
        else
          && State() == S.Load(gated) == S.Load(old(State()))
          && stop == if loadFailed then Some(UsageUnavailable) else None
    {
      stop := CheckPaused(pause);
      if stop.Some? { return; }
      var failed := EnsureUsage();
      if failed { stop := Some(UsageUnavailable); }
    }

    /** The rest of Put, once the index is loaded. */
    method StoreFile(id: Id, body: Body, info: Info, now: int) returns (r: Outcome<File>)
      requires !loadFailed
      modifies this
      ensures r.Ok? ==> r.value == S.NewFile(cfg, id, body.bytes, info, now)
      ensures r.Ok? ==> State() == S.PutCommit(cfg, old(State()), id, body.bytes, info, now)
      ensures r.Err? ==> State() == old(State())
      ensures
        var e := S.PutError(cfg, old(State()), id, body, info);
        && (r.Ok? ==> e.None?)
        && (r.Err? && r != Err(Io) ==> e == Some(r.error))
        && (!mayFail ==> e == if r.Err? then Some(r.error) else None)
      ensures r.Ok? ==> trail == old(trail) + Through(old(disk), id, PutSlots(body.bytes, r.value))
      ensures r.Ok? ==> |trail| > |old(trail)| && trail[|trail| - 1] == disk
      ensures
        var before := if r.Ok? then trail[..|trail| - 1] else trail;
        PutOnTheWay(old(trail), before, old(disk), id, body.bytes, S.NewFile(cfg, id, body.bytes, info, now))
      ensures forall i | |old(trail)| <= i < |trail| :: NeverHalf(cfg.sha, old(disk), id, trail[i])
      ensures trail == old(trail) || View(old(disk), id).(manifestTmp := None) == VACANT
    {
      r := CheckAndWrite(id, body, info, now);
      ghost var f := S.NewFile(cfg, id, body.bytes, info, now);
      assert r.Ok? ==> disk == Patch(old(disk), id, StoredSlot(body.bytes, f));
      if trail != old(trail) {
        PutTrailNeverHalf(cfg.sha, old(trail), trail, old(disk), id, body.bytes, f, r.Ok?);
      }
    }

    /** An identifier that is taken is refused before anything is written. */
    method CheckAndWrite(id: Id, body: Body, info: Info, now: int) returns (r: Outcome<File>)
      requires !loadFailed
      modifies this
      ensures r.Ok? ==> r.value == S.NewFile(cfg, id, body.bytes, info, now)
      ensures r.Ok? ==> State() == S.PutCommit(cfg, old(State()), id, body.bytes, info, now)
      ensures r.Err? ==> State() == old(State())
      ensures
        var e := S.PutError(cfg, old(State()), id, body, info);
        && (r.Ok? ==> e.None?)
        && (r.Err? && r != Err(Io) ==> e == Some(r.error))
        && (!mayFail ==> e == if r.Err? then Some(r.error) else None)
      ensures r.Ok? ==> trail == old(trail) + Through(old(disk), id, PutSlots(body.bytes, r.value))
      ensures r.Ok? ==> |trail| > |old(trail)| && trail[|trail| - 1] == disk
      ensures
        var before := if r.Ok? then trail[..|trail| - 1] else trail;
        PutOnTheWay(old(trail), before, old(disk), id, body.bytes, S.NewFile(cfg, id, body.bytes, info, now))
      ensures trail == old(trail) || View(old(disk), id).(manifestTmp := None) == VACANT
    {
      if id in disk.objects || id in disk.manifests || id in disk.trash { return Err(FileExists); }
      if id in disk.parts { return Err(Io); }
      ghost var f := S.NewFile(cfg, id, body.bytes, info, now);
      r := WriteFile(Path(trail, disk, id, PutSteps(View(disk, id), body.bytes, f)), id, body, info, now);
    }

    /** The writing part of Put, for an identifier of which at most a staged manifest exists. */
    method WriteFile(ghost p: Path, id: Id, body: Body, info: Info, now: int) returns (r: Outcome<File>)
      requires id !in disk.objects && id !in disk.manifests && id !in disk.trash && id !in disk.parts
      requires p == Path(trail, disk, id,
                         PutSteps(View(disk, id), body.bytes, S.NewFile(cfg, id, body.bytes, info, now)))
      modifies this
      ensures r.Ok? ==> !body.fails && id !in old(disk).manifestTmps
      ensures r.Ok? ==> S.QuotaGate(cfg, old(State()), info.owner, |body.bytes|).None?
      ensures r.Ok? ==> r.value == S.NewFile(cfg, id, body.bytes, info, now)
      ensures r.Ok? ==> State() == S.PutCommit(cfg, old(State()), id, body.bytes, info, now)
      ensures r.Err? ==> State() == old(State())
      ensures r.Err? && r != Err(Io) ==>
        if body.fails then r.error == ReadFailed
        else S.QuotaGate(cfg, old(State()), info.owner, |body.bytes|) == Some(r.error)
      ensures !mayFail && r == Err(Io) ==>
        !body.fails && S.QuotaGate(cfg, old(State()), info.owner, |body.bytes|).None? && id in old(disk).manifestTmps
      ensures r.Ok? ==> trail == old(trail) + Through(old(disk), id, PutSlots(body.bytes, r.value))
      ensures r.Ok? ==> |trail| > |old(trail)| && trail[|trail| - 1] == disk
      ensures OnPath(p, if r.Ok? then trail[..|trail| - 1] else trail)
    {
      var free := View(disk, id);
      var f := S.NewFile(cfg, id, body.bytes, info, now);
      var stop := StageBody(p, id, free, body, f);
      if stop.Some? { return Err(stop.value); }
      var over := S.QuotaGate(cfg, State0(), info.owner, |body.bytes|);
      if over.Some? {
        Discard(p, id, free, body.bytes);
        return Err(over.value);
      }
      var ok := CommitFile(p, id, free, body.bytes, f);
      if !ok { return Err(Io); }
      TrailOf(old(trail), p.base, id, PutSlots(body.bytes, f));
      return Ok(f);
    }

    /** Put receives the body in tmp/; what it has of it goes when the body fails. */
    method StageBody(ghost p: Path, id: Id, free: Slot, body: Body, ghost f: File) returns (stop: Option<Error>)
      requires disk == p.base && free == View(p.base, id) && free.part.None?
      requires p.id == id && OnPath(p, trail) && PutSteps(free, body.bytes, f) <= p.slots
      modifies this`disk, this`trail
      ensures stop.None? ==> !body.fails && disk == Patch(p.base, id, free.(part := Some(body.bytes)))
      ensures stop.None? ==> trail == old(trail) + [Patch(p.base, id, free.(part := Some([])))] + [disk]
      ensures stop.Some? ==> disk == p.base && (stop == Some(Io) || (body.fails && stop == Some(ReadFailed)))
      ensures OnPath(p, trail)
      ensures !mayFail ==> stop == if body.fails then Some(ReadFailed) else None
    {
      PatchSame(p.base, id);
      assert free in p.slots && free.(part := Some([])) in p.slots && free.(part := Some(body.bytes)) in p.slots;
      var ok := Attempt(p, id, free, free.(part := Some([])));
      if !ok { return Some(Io); }
      if body.fails {
        Discard(p, id, free, []);
        return Some(ReadFailed);
      }
      ok := Attempt(p, id, free.(part := Some([])), free.(part := Some(body.bytes)));
      if !ok {
        Discard(p, id, free, []);
        return Some(Io);
      }
      stop := None;
    }

    /** The deferred removal of Put's temporary file. */
    method Discard(ghost p: Path, id: Id, free: Slot, ghost bytes: Bytes)
      requires disk == Patch(p.base, id, free.(part := Some(bytes))) && free == View(p.base, id)
      requires p.id == id && OnPath(p, trail) && free in p.slots
      modifies this`disk, this`trail
      ensures disk == p.base
      ensures OnPath(p, trail)
    {
      Clean(p, id, free.(part := Some(bytes)), free);
      PatchSame(p.base, id);
    }

    /** The renames of Put: the object first, then its manifest. */
    method CommitFile(ghost p: Path, id: Id, free: Slot, bytes: Bytes, f: File) returns (ok: bool)
      requires free == View(p.base, id) && free.content.None? && free.manifest.None? && free.trash.None?
      requires free.part.None?
      requires disk == Patch(p.base, id, free.(part := Some(bytes)))
      requires p.id == id && OnPath(p, trail) && PutSteps(free, bytes, f) <= p.slots
      modifies this
      ensures ok ==>
        var stored := old(State()).(disk := Patch(p.base, id, StoredSlot(bytes, f)));
        State() == S.Moved(stored, f.info.owner, None, Some(S.Files), f.size)
      ensures ok ==>
        trail == old(trail) + [Patch(p.base, id, PutSlots(bytes, f)[2])] + [Patch(p.base, id, PutSlots(bytes, f)[3])]
                              + [Patch(p.base, id, PutSlots(bytes, f)[4])] + [Patch(p.base, id, PutSlots(bytes, f)[5])]
      ensures ok ==> |trail| > 0 && OnPath(p, trail[..|trail| - 1])
      ensures !ok ==> State() == old(State()).(disk := p.base) && OnPath(p, trail)
      ensures ok ==> free.manifestTmp.None?
      ensures !mayFail && free.manifestTmp.None? ==> ok
    {
      PatchSame(p.base, id);
      var stored := free.(content := Some(bytes));
      assert free in p.slots && StagedSteps(stored, f) <= p.slots && stored in StagedSteps(stored, f);
      ok := Attempt(p, id, free.(part := Some(bytes)), stored);
      if !ok {
        Discard(p, id, free, bytes);
        return;
      }
      ok := WriteManifest(p, id, stored, f);
      if !ok {
        Clean(p, id, stored, free);
        return;
      }
      MoveUsage(f.info.owner, None, Some(S.Files), f.size);
    }

    /** The part of the state that the quota decision reads. */
    function State0(): Store
      reads this
    {
      S.Store(EMPTY, usage, usageValid, loaded, loadFailed)
    }

    // -------------------------------------------------------------- Delete and Restore

    /** Delete is all or nothing under every error: the deferred rollback undoes each step. At
        every step, forward or back, one copy of the bytes exists under one record. */
    method Delete(id: Id, now: int) returns (r: Outcome<()>)
      modifies this
      ensures r != Err(Io) || !mayFail ==> (State(), r) == S.Delete(old(State()), id, now)
      ensures r == Err(Io) ==> State() == old(State())
      ensures r.Ok? && id in old(disk.manifests) ==>
        trail == old(trail) + Through(
          old(disk), id, DeleteSlots(View(old(disk), id), old(disk.manifests[id]).(deletedAt := Some(now))))
      ensures !S.Deletable(old(disk), id) ==> trail == old(trail)
      ensures S.Deletable(old(disk), id) ==>
        Steps(old(trail), trail, old(disk), id,
              DeleteSteps(View(old(disk), id), old(disk.manifests[id]).(deletedAt := Some(now))))
      ensures forall i | |old(trail)| <= i < |trail| ::
        id in old(disk.objects) && OneCopy(old(disk), id, old(disk.objects[id]), trail[i])
    {
      var slot := View(disk, id);
      if slot.content.None? && slot.manifest.None? { return Ok(()); }
      if slot.content.None? || slot.manifest.None? || slot.trash.Some? { return Err(CorruptMetadata); }
      ghost var p := Path(trail, disk, id, DeleteSteps(slot, slot.manifest.value.(deletedAt := Some(now))));
      r := MoveToTrash(p, id, slot, now);
      DeleteStepsKeepOneCopy(old(trail), trail, old(disk), id, slot.manifest.value.(deletedAt := Some(now)));
    }

    /** The moves of Delete. */
    method MoveToTrash(ghost p: Path, id: Id, slot: Slot, now: int) returns (r: Outcome<()>)
      requires slot == View(disk, id) && slot.content.Some? && slot.manifest.Some? && slot.trash.None?
      requires p == Path(trail, disk, id, DeleteSteps(slot, slot.manifest.value.(deletedAt := Some(now))))
      modifies this
      ensures r != Err(Io) || !mayFail ==> (State(), r) == S.Delete(old(State()), id, now)
      ensures r == Err(Io) ==> State() == old(State())
      ensures r.Ok? ==>
        trail == old(trail) + Through(old(disk), id, DeleteSlots(slot, slot.manifest.value.(deletedAt := Some(now))))
      ensures OnPath(p, trail)
    {
      PatchSame(p.base, id);
      var f := slot.manifest.value.(deletedAt := Some(now));
      var s1 := slot.(trash := Some(TrashDir(None, None, None)));
      var s2 := slot.(content := None, trash := Some(TrashDir(slot.content, None, None)));
      var s3 := slot.(content := None, manifest := None, trash := Some(TrashDir(slot.content, slot.manifest, None)));
      assert slot in p.slots && s1 in p.slots && s2 in p.slots && s3 in TrashManifestSteps(s3, f);
      assert TrashManifestSteps(s3, f) <= p.slots;
      var ok := Attempt(p, id, slot, s1);
      if !ok { return Err(Io); }
      ok := Attempt(p, id, s1, s2);
      if !ok {
        Clean(p, id, s1, slot);
        return Err(Io);
      }
      ok := Attempt(p, id, s2, s3);
      if !ok {
        Rollback(p, id, s2, slot, f);
        return Err(Io);
      }
      var stored := slot.manifest.value;
      if stored.id != id {
        Rollback(p, id, s3, slot, f);
        return Err(CorruptMetadata);
      }
      ok := WriteTrashManifest(p, id, s3, f);
      if !ok {
        Rollback(p, id, s3, slot, f);
        return Err(Io);
      }
      MoveUsage(f.info.owner, Some(S.Files), Some(S.Trash), f.size);
      TrailOf(old(trail), p.base, id, DeleteSlots(slot, f));
      return Ok(());
    }

    /** The deferred rollback of Delete: object back, manifest back, trash entry removed. */
    method Rollback(ghost p: Path, id: Id, s: Slot, ghost before: Slot, ghost f: File)
      requires disk == Patch(p.base, id, s) && before == View(p.base, id) && before.trash.None?
      requires s == before.(content := None, trash := Some(TrashDir(before.content, None, None)))
               || s == before.(content := None, manifest := None,
                               trash := Some(TrashDir(before.content, before.manifest, None)))
      requires s.trash.value.manifest.None? || before.manifest.Some?
      requires p.id == id && OnPath(p, trail) && DeleteSteps(before, f) <= p.slots
      modifies this`disk, this`trail
      ensures disk == p.base
      ensures OnPath(p, trail)
    {
      var dir := s.trash.value;
      var back := s.(content := dir.content, trash := Some(dir.(content := None)));
      assert back in DeleteSteps(before, f) && before in DeleteSteps(before, f);
      Clean(p, id, s, back);
      if dir.manifest.Some? {
        var both := back.(manifest := dir.manifest, trash := Some(TrashDir(None, None, None)));
        assert both == before.(trash := Some(TrashDir(None, None, None)));
        assert both in DeleteSteps(before, f);
        Clean(p, id, back, both);
        Clean(p, id, both, both.(trash := None));
      } else {
        Clean(p, id, back, back.(trash := None));
      }
      PatchSame(p.base, id);
    }

    /** Restore is not: once the manifest in trash has lost its deletion time, a failing
        rename leaves it so, and a failing removal of the emptied entry leaves the object in
        trash under an active manifest. Still there is one copy under one record at every step. */
    method Restore(id: Id) returns (r: Outcome<File>)
      modifies this
      ensures r != Err(Io) || !mayFail ==> (State(), r) == S.Restore(old(State()), id)
      ensures r == Err(Io) ==> State() == old(State())
                               || (S.Restorable(old(disk), id)
                                   && State() == old(State()).(disk := RestoreCleared(old(disk), id)))
                               || (S.Restorable(old(disk), id)
                                   && State() == old(State()).(disk := RestoreSplit(old(disk), id)))
      ensures r.Ok? ==> trail == old(trail) + Through(old(disk), id, RestoreSlots(View(old(disk), id), r.value))
      ensures !S.Restorable(old(disk), id) ==> trail == old(trail)
      ensures S.Restorable(old(disk), id) ==>
        Steps(old(trail), trail, old(disk), id,
              RestoreSteps(View(old(disk), id), ReadTrash(old(disk), id).value.(deletedAt := None)))
      ensures forall i | |old(trail)| <= i < |trail| ::
        S.Restorable(old(disk), id) && OneCopy(old(disk), id, old(disk).trash[id].content.value, trail[i])
    {
      var read := ReadTrash(disk, id);
      if read.Err? { return Err(read.error); }
      var slot := View(disk, id);
      if slot.content.Some? || slot.manifest.Some? { return Err(RestoreConflict); }
      if slot.trash.value.manifestTmp.Some? { return Err(Io); }
      var f := read.value.(deletedAt := None);
      ghost var p := Path(trail, disk, id, RestoreSteps(slot, f));
      r := MoveFromTrash(p, id, slot, f);
      RestoreStepsKeepOneCopy(old(trail), trail, old(disk), id, f);
    }

    /** The moves of Restore. */
    method MoveFromTrash(ghost p: Path, id: Id, slot: Slot, f: File) returns (r: Outcome<File>)
      requires S.Restorable(disk, id) && slot == View(disk, id) && f == ReadTrash(disk, id).value.(deletedAt := None)
      requires p == Path(trail, disk, id, RestoreSteps(slot, f))
      modifies this
      ensures r.Ok? ==> (State(), r) == S.Restore(old(State()), id)
      ensures r.Err? ==> r == Err(Io) && mayFail
      ensures r.Err? ==> State() == old(State()) || State() == old(State()).(disk := RestoreCleared(old(disk), id))
                         || State() == old(State()).(disk := RestoreSplit(old(disk), id))
      ensures r.Ok? ==> trail == old(trail) + Through(old(disk), id, RestoreSlots(slot, r.value))
      ensures OnPath(p, trail)
    {
      PatchSame(p.base, id);
      var dir := slot.trash.value;
      var cleared := dir.(manifest := Some(f));
      var s3 := slot.(trash := Some(cleared));
      var s4 := slot.(trash := Some(cleared.(content := None)), content := dir.content);
      var s5 := slot.(trash := Some(TrashDir(None, None, None)), content := dir.content, manifest := Some(f));
      var split := s5.(content := None, trash := Some(TrashDir(dir.content, None, None)));
      assert s3 in TrashManifestSteps(slot, f) && TrashManifestSteps(slot, f) <= p.slots;
      assert s4 in p.slots && s5 in p.slots && split in p.slots && s5.(trash := None) in p.slots;
      var ok := WriteTrashManifest(p, id, slot, f);
      if !ok { return Err(Io); }
      ok := Attempt(p, id, s3, s4);
      if !ok { return Err(Io); }
      ok := Attempt(p, id, s4, s5);
      if !ok {
        Clean(p, id, s4, s3);
        return Err(Io);
      }
      ok := Attempt(p, id, s5, s5.(trash := None));
      if !ok {
        Clean(p, id, s5, split);
        return Err(Io);
      }
      MoveUsage(f.info.owner, Some(S.Trash), Some(S.Files), f.size);
      TrailOf(old(trail), p.base, id, RestoreSlots(slot, f));
      return Ok(f);
    }

    // -------------------------------------------------------------- uploads

    /** os.ReadDir: the names of a directory in some order. */
    method ReadDir(names: set<Id>) returns (listing: seq<Id>)
      ensures S.Lists(listing, names)
    {
      listing := [];
      var todo := names;
      while todo != {}
        invariant todo <= names
        invariant forall i, j | 0 <= i < j < |listing| :: listing[i] != listing[j]
        invariant forall id :: id in listing <==> id in names - todo
      {
        var id :| id in todo;
        assert id !in listing;
        listing := listing + [id];
        todo := todo - {id};
      }
    }

    /** One turn of the sweep's loop: an unreadable session is left for Recover, a live one
        is kept. */
    method SweepEntry(id: Id, now: int) returns (gone: bool, ok: bool)
      requires cfg.ttl > 0
      modifies this
      ensures ok ==> State() == S.SweepOne(cfg, old(State()), id, now)
      ensures !ok ==> State() == old(State()) && !gone
      ensures |disk.uploads| == |old(disk).uploads| - if gone then 1 else 0
      ensures trail == old(trail) || (ok && trail == old(trail) + [disk])
      ensures !mayFail ==> ok
    {
      var session := ReadSession(disk, id);
      if session.Err? { return false, true; }
      var u := session.value;
      if u.status.Uploading? && now - u.updatedAt < cfg.ttl { return false, true; }
      ghost var p := SessionPath(trail, disk, id, {None});
      PatchSessionSame(p.base, id);
      ok := AttemptSession(p, id, GetAt(p.base.uploads, id), None);
      if !ok { return false, false; }
      if !u.status.Completed? {
        MoveUsage(u.info.owner, Some(S.Uploads), None, u.size);
      }
      gone := true;
    }

    /** sweepUploadsUnlocked: what it meets in the listing order, up to the first removal
        that fails. */
    method SweepUploads(now: int) returns (removed: nat, ok: bool, ghost listing: seq<Id>, ghost upTo: nat)
      modifies this
      ensures S.Lists(listing, old(disk).uploads.Keys) && upTo <= |listing|
      ensures State() == S.SweepAll(cfg, old(State()), listing[..upTo], now)
      ensures removed == |old(disk).uploads| - |disk.uploads|
      ensures SweepTrail(old(trail), trail, cfg, old(State()), listing, now)
      ensures ok ==> upTo == |listing|
      ensures ok ==> forall id | id in old(disk).uploads ::
        && (id in disk.uploads <==>
              || cfg.ttl <= 0 || ReadSession(old(disk), id).Err?
              || (ReadSession(old(disk), id).value.status == Uploading
                  && now - ReadSession(old(disk), id).value.updatedAt < cfg.ttl))
        && (id in disk.uploads ==> disk.uploads[id] == old(disk).uploads[id])
      ensures !mayFail ==> ok
    {
      var entries := ReadDir(disk.uploads.Keys);
      listing, upTo, removed := entries, 0, 0;
      if cfg.ttl <= 0 {
        NothingExpires(cfg, State(), listing, now);
        upTo := |listing|;
        assert listing[..upTo] == listing;
        SweepKeeps(cfg, old(State()), listing, now);
        return removed, true, listing, upTo;
      }
      var i := 0;
      while i < |entries|
        invariant 0 <= i == upTo <= |entries|
        invariant State() == S.SweepAll(cfg, old(State()), entries[..i], now)
        invariant SweepTrail(old(trail), trail, cfg, old(State()), entries, now)
        invariant removed == |old(disk).uploads| - |disk.uploads|
      {
        SweepOneMore(cfg, old(State()), entries, i, now);
        ghost var before := trail;
        var gone, done := SweepEntry(entries[i], now);
        if !done { return removed, false, listing, upTo; }
        SweepTrailGrows(old(trail), before, cfg, old(State()), entries, now, i + 1);
        if gone { removed := removed + 1; }
        i, upTo := i + 1, upTo + 1;
      }
      assert entries[..i] == entries;
      SweepKeeps(cfg, old(State()), entries, now);
      ok := true;
    }

    /** StartUpload: the pause check, the sweep, the quota, and the new session. A request that is
        invalid or meets a full disk is refused before the sweep; middle is the trail after it, and
        before the trail without the last step of a success. */
    method StartUpload(pause: Pause, id: Id, size: int, checksum: string, info: Info, now: int)
      returns (r: Outcome<Session>, ghost listing: seq<Id>, ghost upTo: nat, ghost middle: seq<Disk>,
               ghost before: seq<Disk>)
      modifies this
      ensures S.Lists(listing, old(disk).uploads.Keys) && upTo <= |listing|
      ensures r != Err(Io) || !mayFail ==>
        (State(), r) == S.StartUpload(cfg, old(State()), pause, listing, id, size, checksum, info, now)
      ensures r == Err(Io) ==>
        var swept := S.SweepAll(cfg, S.PauseGate(old(State()), pause).0, listing[..upTo], now);
        State() == swept || State() == S.Load(swept)
      ensures trail == if r.Ok? then before + [disk] else before
      ensures
        var gated := S.PauseGate(old(State()), pause).0;
        && SweepTrail(old(trail), middle, cfg, gated, listing, now)
        && SessionSteps(middle, before, S.SweepAll(cfg, gated, listing, now).disk, id,
                        StartSteps(S.NewSession(id, size, Lower(TrimSpace(checksum)), info, now)))
    {
      upTo, middle, before := 0, trail, trail;
      listing := SomeListing(disk.uploads.Keys);
      if size <= 0 || (checksum != "" && !IsSha256(checksum)) {
        return Err(InvalidUpload), listing, upTo, middle, before;
      }
      var stop := CheckPaused(pause);
      if stop.Some? { return Err(stop.value), listing, upTo, middle, before; }
      r, listing, upTo, middle, before := SweepAndAdmit(id, size, Lower(TrimSpace(checksum)), info, now);
    }

    method SweepAndAdmit(id: Id, size: int, checksum: string, info: Info, now: int)
      returns (r: Outcome<Session>, ghost listing: seq<Id>, ghost upTo: nat, ghost middle: seq<Disk>,
               ghost before: seq<Disk>)
      modifies this
      ensures S.Lists(listing, old(disk).uploads.Keys) && upTo <= |listing|
      ensures
        var t := S.Load(S.SweepAll(cfg, old(State()), listing, now));
        r != Err(Io) || !mayFail ==>
          (State(), r) == if t.loadFailed then (t, Err(UsageUnavailable))
            else S.Admit(cfg, t, id, size, checksum, info, now)
      ensures r == Err(Io) ==>
        var swept := S.SweepAll(cfg, old(State()), listing[..upTo], now);
        State() == swept || State() == S.Load(swept)
      ensures trail == if r.Ok? then before + [disk] else before
      ensures
        && SweepTrail(old(trail), middle, cfg, old(State()), listing, now)
        && SessionSteps(middle, before, S.SweepAll(cfg, old(State()), listing, now).disk, id,
                        StartSteps(S.NewSession(id, size, checksum, info, now)))
    {
      var removed, ok;
      removed, ok, listing, upTo := SweepUploads(now);
      middle, before := trail, trail;
      if !ok { return Err(Io), listing, upTo, middle, before; }
      assert listing[..upTo] == listing;
      var failed := EnsureUsage();
      if failed { return Err(UsageUnavailable), listing, upTo, middle, before; }
      r, before := AdmitUpload(id, size, checksum, info, now);
    }

    /** The second half of StartUpload. */
    method AdmitUpload(id: Id, size: int, checksum: string, info: Info, now: int)
      returns (r: Outcome<Session>, ghost before: seq<Disk>)
      modifies this
      ensures r != Err(Io) || !mayFail ==> (State(), r) == S.Admit(cfg, old(State()), id, size, checksum, info, now)
      ensures r == Err(Io) ==> State() == old(State())
      ensures r.Ok? ==> trail == old(trail) + ThroughSession(old(disk), id, StartDirs(r.value))
      ensures trail == if r.Ok? then before + [disk] else before
      ensures SessionSteps(old(trail), before, old(disk), id, StartSteps(S.NewSession(id, size, checksum, info, now)))
    {
      var over := S.QuotaGate(cfg, State0(), info.owner, size);
      before := trail;
      if over.Some? { return Err(over.value), before; }
      if id in disk.uploads { return Err(Io), before; }
      var u := S.NewSession(id, size, checksum, info, now);
      var ok;
      ok, before := CreateSession(id, u);
      if !ok { return Err(Io), before; }
      MoveUsage(info.owner, None, Some(S.Uploads), size);
      r := Ok(u);
    }

    /** The directory, the empty part and the manifest of a new session. */
    method CreateSession(id: Id, u: Session) returns (ok: bool, ghost before: seq<Disk>)
      requires id !in disk.uploads
      modifies this`disk, this`trail
      ensures ok ==> disk == PatchSession(old(disk), id, Some(StartedDir(u)))
      ensures ok ==> trail == old(trail) + ThroughSession(old(disk), id, StartDirs(u))
      ensures trail == if ok then before + [disk] else before
      ensures SessionSteps(old(trail), before, old(disk), id, StartSteps(u))
      ensures !ok ==> disk == old(disk)
      ensures !mayFail ==> ok
    {
      ghost var p := SessionPath(trail, disk, id, StartSteps(u));
      PatchSessionSame(p.base, id);
      var bare, empty := SessionDir(None, None, None), SessionDir(None, None, Some([]));
      assert None in p.dirs && Some(bare) in p.dirs && Some(empty) in StagedUploadSteps(empty, u);
      assert StagedUploadSteps(empty, u) <= p.dirs;
      ok := AttemptSession(p, id, None, Some(bare));
      before := trail;
      if !ok { return; }
      ok := AttemptSession(p, id, Some(bare), Some(empty));
      if !ok {
        CleanSession(p, id, Some(bare), None);
        before := trail;
        return;
      }
      ok := WriteUploadManifest(p, id, empty, u);
      if !ok {
        CleanSession(p, id, Some(empty), None);
        before := trail;
        return;
      }
      before := trail[..|trail| - 1];
      SessionTrailOf(old(trail), p.base, id, StartDirs(u));
    }

    /** AppendUpload writes the chunk first and judges it afterwards; every rejection and every
        error rolls the part back. */
    method AppendUpload(pause: Pause, id: Id, offset: int, chunkSize: int, body: Body, checksum: string, now: int)
      returns (r: Outcome<Session>)
      modifies this
      ensures r != Err(Io) || !mayFail ==>
        (State(), r) == S.AppendUpload(cfg, old(State()), pause, id, offset, chunkSize, body, checksum, now)
      ensures r == Err(Io) ==> State() == S.PauseGate(old(State()), pause).0
      ensures r.Ok? ==> id in old(disk).uploads && old(disk).uploads[id].data.Some?
      ensures r.Ok? ==>
        trail == old(trail) + ThroughSession(old(disk), id, AppendDirs(old(disk).uploads[id], body.bytes, r.value))
      ensures trail == old(trail)
              || (&& ReadSession(old(disk), id).Ok? && ReadSession(old(disk), id).value.status.Uploading?
                  && chunkSize > 0
                  && var u, written := ReadSession(old(disk), id).value, S.Written(body, chunkSize);
                     SessionSteps(old(trail), trail, old(disk), id,
                                  AppendSteps(old(disk).uploads[id], written, S.Grown(u, written, now))))
    {
      if offset < 0 || chunkSize <= 0 || (checksum != "" && !IsSha256(checksum)) { return Err(InvalidUpload); }
      var read := ReadSession(disk, id);
      if read.Err? { return Err(read.error); }
      var u := read.value;
      if !u.status.Uploading? || offset != u.received { return Err(OffsetConflict); }
      var stop := CheckPaused(pause);
      if stop.Some? { return Err(stop.value); }
      if chunkSize > u.size - u.received { return Err(UploadTooLarge); }
      ghost var written := S.Written(body, chunkSize);
      ghost var p := SessionPath(trail, disk, id, AppendSteps(disk.uploads[id], written, S.Grown(u, written, now)));
      r := AppendChunk(p, id, u, chunkSize, body, checksum, now);
    }

    /** The writing half of AppendUpload. */
    method AppendChunk(ghost p: SessionPath, id: Id, u: Session, chunkSize: int, body: Body, checksum: string, now: int)
      returns (r: Outcome<Session>)
      requires ReadSession(disk, id) == Ok(u) && u.status.Uploading? && 0 < chunkSize <= u.size - u.received
      requires
        var written := S.Written(body, chunkSize);
        p == SessionPath(trail, disk, id, AppendSteps(disk.uploads[id], written, S.Grown(u, written, now)))
      modifies this`disk, this`trail
      ensures r.Err? ==> disk == old(disk)
      ensures r.Ok? ==> r.value == S.Grown(u, body.bytes, now)
      ensures r.Ok? ==>
        disk == PatchSession(old(disk), id, Some(AppendedDir(old(disk).uploads[id], body.bytes, r.value)))
      ensures
        var e := S.ChunkError(cfg, u, chunkSize, body, checksum);
        && (r.Ok? ==> e.None? && old(disk).uploads[id].manifestTmp.None?)
        && (r.Err? && r != Err(Io) ==> e == Some(r.error))
        && (!mayFail && e.Some? ==> r == Err(e.value))
        && (!mayFail && e.None? && old(disk).uploads[id].manifestTmp.None? ==> r.Ok?)
      ensures r.Ok? ==>
        trail == old(trail) + ThroughSession(old(disk), id, AppendDirs(old(disk).uploads[id], body.bytes, r.value))
      ensures OnSessionPath(p, trail)
    {
      var dir := disk.uploads[id];
      var written := S.Written(body, chunkSize);
      var longer := dir.(data := Some(dir.data.value + written));
      PatchSessionSame(p.base, id);
      assert Some(longer) in UploadManifestSteps(longer, S.Grown(u, written, now)) && Some(dir) in p.dirs;
      var ok := AttemptSession(p, id, Some(dir), Some(longer));
      if !ok { return Err(Io); }
      var verdict := Judge(u, chunkSize, body, written, checksum);
      if verdict.Some? {
        Truncate(p, id, longer, |dir.data.value|);
        return Err(verdict.value);
      }
      ok := CountChunk(p, id, dir, longer, S.Grown(u, written, now));
      if !ok { return Err(Io); }
      ShortTrailOf(old(trail), p.base, id, AppendDirs(dir, written, S.Grown(u, written, now)));
      return Ok(S.Grown(u, written, now));
    }

    /** The end of AppendUpload: the manifest that counts the chunk, or else the rollback. */
    method CountChunk(ghost p: SessionPath, id: Id, dir: SessionDir, longer: SessionDir, grown: Session)
      returns (ok: bool)
      requires id in p.base.uploads && p.base.uploads[id] == dir && dir.data.Some? && longer.data.Some?
      requires dir.data.value <= longer.data.value && longer == dir.(data := longer.data)
      requires p.id == id && OnSessionPath(p, trail) && UploadManifestSteps(longer, grown) <= p.dirs
      requires Some(dir) in p.dirs
      requires disk == PatchSession(p.base, id, Some(longer))
      modifies this`disk, this`trail
      ensures !ok ==> disk == p.base
      ensures ok ==>
        && disk == PatchSession(p.base, id, Some(longer.(manifest := Some(grown)))) && dir.manifestTmp.None?
        && trail == old(trail) + [PatchSession(p.base, id, Some(longer.(manifestTmp := Some(Torn))))]
                    + [PatchSession(p.base, id, Some(longer.(manifestTmp := Some(Whole(grown)))))] + [disk]
      ensures OnSessionPath(p, trail)
      ensures !mayFail ==> (ok <==> dir.manifestTmp.None?)
    {
      ok := WriteUploadManifest(p, id, longer, grown);
      if !ok {
        assert longer.data.value[..|dir.data.value|] == dir.data.value;
        assert dir == longer.(data := Some(longer.data.value[..|dir.data.value|]));
        Truncate(p, id, longer, |dir.data.value|);
      }
    }

    /** The checks on a chunk after it has been written: no error means that the body was exactly
        the announced number of bytes, was read to its end, and has the announced checksum. */
    method Judge(u: Session, chunkSize: int, body: Body, written: Bytes, checksum: string)
      returns (verdict: Option<Error>)
      requires 0 < chunkSize <= u.size - u.received && written == S.Written(body, chunkSize)
      ensures verdict == S.ChunkError(cfg, u, chunkSize, body, checksum)
      ensures verdict.None? <==> && |body.bytes| == chunkSize && !body.fails
                                 && (checksum != "" ==> EqualFold(TrimSpace(checksum), cfg.sha(body.bytes)))
      ensures verdict.None? ==> written == body.bytes && u.received + |written| <= u.size
    {
      verdict := None;
      if body.fails && |body.bytes| <= chunkSize {
        verdict := Some(ReadFailed);
      } else if |written| > u.size - u.received {
        verdict := Some(UploadTooLarge);
      } else if |written| != chunkSize {
        verdict := Some(ChunkSize);
      } else if checksum != "" && !EqualFold(TrimSpace(checksum), cfg.sha(written)) {
        verdict := Some(ChecksumMismatch);
      }
    }

    /** The rollback of AppendUpload. */
    method Truncate(ghost p: SessionPath, id: Id, dir: SessionDir, size: nat)
      requires disk == PatchSession(p.base, id, Some(dir)) && id in p.base.uploads
      requires dir.data.Some? && size <= |dir.data.value|
      requires p.base.uploads[id] == dir.(data := Some(dir.data.value[..size]))
      requires p.id == id && OnSessionPath(p, trail) && Some(p.base.uploads[id]) in p.dirs
      modifies this`disk, this`trail
      ensures disk == p.base
      ensures OnSessionPath(p, trail)
    {
      CleanSession(p, id, Some(dir), Some(dir.(data := Some(dir.data.value[..size]))));
      PatchSessionSame(p.base, id);
    }

    /** CompleteUpload fails cleanly only up to the rename of data.part; afterwards the cleanup
        removes the bytes it has moved. */
    method CompleteUpload(id: Id, fileId: Id, now: int) returns (r: Outcome<File>)
      requires View(disk, fileId) == VACANT
      modifies this
      ensures r != Err(Io) || !mayFail ==> (State(), r) == S.CompleteUpload(cfg, old(State()), id, fileId, now)
      ensures r == Err(Io) ==> State() == old(State())
                               || (S.Completable(old(disk), id)
                                   && State() == old(State()).(disk := S.PartLost(old(disk), id)))
      ensures r.Ok? && ReadSession(old(disk), id).Ok? && ReadSession(old(disk), id).value.status.Uploading? ==>
        trail == old(trail) + CompleteTrail(
          old(disk), id, fileId, r.value, S.CompletedSession(ReadSession(old(disk), id).value, fileId, now))
      ensures !S.Completable(old(disk), id) ==> trail == old(trail)
      ensures S.Completable(old(disk), id) ==>
        var u, bytes := ReadSession(old(disk), id).value, old(disk).uploads[id].data.value;
        CompleteSteps(old(trail), trail, old(disk), id, fileId, S.CompletedFile(cfg, u, fileId, bytes),
                      S.CompletedSession(u, fileId, now))
    {
      var read := ReadSession(disk, id);
      if read.Err? { return Err(read.error); }
      var u := read.value;
      if u.status.Completed? { return ReadFile(disk, u.fileId.value); }
      if u.received != u.size { return Err(UploadIncomplete); }
      var bytes := disk.uploads[id].data.value;
      if u.checksum != "" && !EqualFold(u.checksum, cfg.sha(bytes)) { return Err(ChecksumMismatch); }
      var ok := Publish(id, fileId, u, S.CompletedFile(cfg, u, fileId, bytes), S.CompletedSession(u, fileId, now));
      if !ok { return Err(Io); }
      return Ok(S.CompletedFile(cfg, u, fileId, bytes));
    }

    /** The committing half of CompleteUpload: the part becomes the object, then the manifests
        of file and session are written. */
    method Publish(id: Id, fileId: Id, ghost u: Session, f: File, done: Session) returns (ok: bool)
      requires View(disk, fileId) == VACANT && id in disk.uploads && disk.uploads[id].data.Some?
      requires f.info.owner == u.info.owner && f.size == u.size
      modifies this
      ensures ok ==>
        var d := CompletedDisk(old(disk), id, fileId, f, done);
        State() == S.Moved(old(State()).(disk := d), u.info.owner, Some(S.Uploads), Some(S.Files), u.size)
      ensures ok ==> trail == old(trail) + CompleteTrail(old(disk), id, fileId, f, done)
      ensures ok ==> old(disk).uploads[id].manifestTmp.None?
      ensures !ok ==> State() == old(State()) || State() == old(State()).(disk := S.PartLost(old(disk), id))
      ensures !mayFail ==> (ok <==> old(disk).uploads[id].manifestTmp.None?)
      ensures !mayFail && !ok ==> State() == old(State()).(disk := S.PartLost(old(disk), id))
      ensures CompleteSteps(old(trail), trail, old(disk), id, fileId, f, done)
    {
      ghost var base, start := disk, trail;
      var emptied := disk.uploads[id].(data := None);
      ok := PublishFile(id, fileId, f, done);
      if !ok { return; }
      ghost var file, middle := VACANT.(content := base.uploads[id].data, manifest := Some(f)), trail;
      ghost var q := SessionPath(trail, Patch(base, fileId, file), id, UploadManifestSteps(emptied, done));
      ok := WriteUploadManifest(q, id, emptied, done);
      SessionPartSteps(start, middle, trail, q, base, id, fileId, f, done);
      if !ok {
        RemoveFile(start, base, id, fileId, f, done);
        return;
      }
      MoveUsage(f.info.owner, Some(S.Uploads), Some(S.Files), f.size);
      CompleteTrailOf(old(trail), base, id, fileId, f, done);
    }

    /** The first half: the part becomes the object and the file gets its manifest. */
    method PublishFile(id: Id, fileId: Id, f: File, ghost done: Session) returns (ok: bool)
      requires View(disk, fileId) == VACANT && id in disk.uploads && disk.uploads[id].data.Some?
      modifies this`disk, this`trail
      ensures ok ==>
        var file := VACANT.(content := old(disk).uploads[id].data, manifest := Some(f));
        disk == PatchSession(Patch(old(disk), fileId, file), id, Some(old(disk).uploads[id].(data := None)))
      ensures ok ==>
        var t := CompleteTrail(old(disk), id, fileId, f, done);
        trail == old(trail) + [t[0]] + [t[1]] + [t[2]] + [t[3]]
      ensures !ok ==> disk == old(disk) || disk == S.PartLost(old(disk), id)
      ensures CompleteSteps(old(trail), trail, old(disk), id, fileId, f, done)
      ensures !mayFail ==> ok
    {
      ghost var base, start := disk, trail;
      var emptied, stored := disk.uploads[id].(data := None), VACANT.(content := disk.uploads[id].data);
      ghost var taken := PatchSession(base, id, Some(emptied));
      PatchSame(taken, fileId);
      ok := Call();
      if !ok { return; }
      disk := Patch(PatchSession(disk, id, Some(emptied)), fileId, stored);
      trail := trail + [disk];
      ghost var p := Path(trail, taken, fileId, FilePartSteps(stored, f));
      assert ManifestSteps(stored, f) <= p.slots && VACANT in p.slots;
      ok := WriteManifest(p, fileId, stored, f);
      if !ok {
        Clean(p, fileId, stored, VACANT);
        FileSteps(start, trail, p, base, id, fileId, f, done);
        return;
      }
      FileSteps(start, trail, p, base, id, fileId, f, done);
      SlotThenSession(base, fileId, stored.(manifest := Some(f)), id, Some(emptied));
    }

    /** The deferred clean-up of CompleteUpload: the object goes first, then its manifest. */
    method RemoveFile(ghost start: seq<Disk>, ghost base: Disk, ghost id: Id, fileId: Id, f: File, ghost done: Session)
      requires id in base.uploads && base.uploads[id].data.Some? && View(base, fileId) == VACANT
      requires CompleteSteps(start, trail, base, id, fileId, f, done)
      requires
        var file := VACANT.(content := base.uploads[id].data, manifest := Some(f));
        disk == PatchSession(Patch(base, fileId, file), id, Some(base.uploads[id].(data := None)))
      modifies this`disk, this`trail
      ensures disk == S.PartLost(base, id)
      ensures CompleteSteps(start, trail, base, id, fileId, f, done)
    {
      ghost var emptied, stored := base.uploads[id].(data := None), VACANT.(content := base.uploads[id].data);
      ghost var file, taken := stored.(manifest := Some(f)), PatchSession(base, id, Some(emptied));
      SlotThenSession(base, fileId, file, id, Some(emptied));
      ghost var p, middle := Path(trail, taken, fileId, FilePartSteps(stored, f)), trail;
      assert VACANT in p.slots && VACANT.(manifest := Some(f)) in p.slots;
      Clean(p, fileId, file, VACANT.(manifest := Some(f)));
      Clean(p, fileId, VACANT.(manifest := Some(f)), VACANT);
      MoreFileSteps(start, middle, trail, p, base, id, fileId, f, done);
      PatchSame(taken, fileId);
    }

    /** AbortUpload; removing the directory either happens or does not. */
    method AbortUpload(id: Id) returns (r: Outcome<()>)
      modifies this
      ensures r != Err(Io) || !mayFail ==> (State(), r) == S.AbortUpload(old(State()), id)
      ensures r == Err(Io) ==> State() == old(State())
      ensures trail == old(trail) || trail == old(trail) + [disk]
    {
      var read := ReadSession(disk, id);
      if read == Err(UploadNotFound) { return Ok(()); }
      if read.Err? { return Err(read.error); }
      var u := read.value;
      if u.status.Completed? { return Err(InvalidUpload); }
      ghost var p := SessionPath(trail, disk, id, {None});
      PatchSessionSame(p.base, id);
      var ok := AttemptSession(p, id, GetAt(p.base.uploads, id), None);
      if !ok { return Err(Io); }
      MoveUsage(u.info.owner, Some(S.Uploads), None, u.size);
      return Ok(());
    }

    // -------------------------------------------------------------- purge and figures

    /** PurgeTrash: entries in listing order, up to the first that cannot be read or removed. */
    method PurgeTrash(olderThan: Option<int>) returns (r: Outcome<nat>, ghost listing: seq<Id>, ghost upTo: nat)
      modifies this
      ensures S.Lists(listing, old(disk).trash.Keys) && upTo <= |listing|
      ensures S.PurgeAll(old(State()), listing[..upTo], olderThan)
              == (State(), if r.Ok? || r.error == Io then None else Some(r.error))
      ensures r.Ok? ==> upTo == |listing| && r.value == |old(disk).trash| - |disk.trash|
      ensures r.Ok? ==> forall id | id in old(disk).trash ::
        && ReadTrash(old(disk), id).Ok?
        && (id in disk.trash <==>
              olderThan.Some? && olderThan.value < ReadTrash(old(disk), id).value.deletedAt.value)
      ensures !mayFail ==> (r.Ok? <==> forall id | id in old(disk).trash :: ReadTrash(old(disk), id).Ok?)
      ensures PurgeTrail(old(trail), trail, old(State()), listing, olderThan)
      ensures !mayFail ==> r != Err(Io)
    {
      var entries := ReadDir(disk.trash.Keys);
      ghost var s, was := State(), |disk.trash|;
      listing, upTo := entries, 0;
      var purged, i := 0, 0;
      while i < |entries|
        invariant 0 <= i == upTo <= |entries|
        invariant S.PurgeAll(s, entries[..i], olderThan) == (State(), None)
        invariant PurgeTrail(old(trail), trail, s, entries, olderThan)
        invariant purged == was - |disk.trash|
      {
        var gone, stop := PurgeNext(s, entries, i, olderThan);
        if stop.Some? {
          if !stop.value.Io? { PurgeStops(s, entries, upTo + 1, olderThan); }
          return Err(stop.value), listing, if stop.value.Io? then upTo else upTo + 1;
        }
        assert PurgedTo(s, entries, olderThan, disk) by {
          assert disk == S.PurgeAll(s, entries[..i + 1], olderThan).0.disk;
        }
        if gone { purged := purged + 1; }
        i, upTo := i + 1, upTo + 1;
      }
      assert entries[..i] == entries;
      PurgeKeeps(s, entries, olderThan);
      r := Ok(purged);
    }

    /** One turn of the purge's loop. */
    method PurgeNext(ghost s: Store, entries: seq<Id>, i: nat, olderThan: Option<int>)
      returns (gone: bool, stop: Option<Error>)
      requires i < |entries| && S.PurgeAll(s, entries[..i], olderThan) == (State(), None)
      modifies this
      ensures stop != Some(Io) ==> S.PurgeAll(s, entries[..i + 1], olderThan) == (State(), stop)
      ensures stop.Some? ==> State() == old(State())
      ensures stop.None? ==> |disk.trash| == |old(disk).trash| - if gone then 1 else 0
      ensures trail == old(trail) || (stop.None? && trail == old(trail) + [disk])
      ensures !mayFail ==> stop != Some(Io)
    {
      PurgeOneMore(s, entries, i, olderThan, State());
      var read := ReadTrash(disk, entries[i]);
      if read.Err? { return false, Some(read.error); }
      var ok;
      gone, ok := PurgeEntry(entries[i], read.value, olderThan);
      stop := if ok then None else Some(Io);
    }

    /** The removal of one entry, if it is old enough. */
    method PurgeEntry(id: Id, f: File, olderThan: Option<int>) returns (gone: bool, ok: bool)
      requires ReadTrash(disk, id) == Ok(f)
      modifies this
      ensures ok ==> State() == S.PurgeOne(old(State()), id, olderThan)
      ensures !ok ==> State() == old(State()) && !gone
      ensures |disk.trash| == |old(disk).trash| - if gone then 1 else 0
      ensures trail == old(trail) || (ok && trail == old(trail) + [disk])
      ensures !mayFail ==> ok
    {
      if !S.Purged(f, olderThan) { return false, true; }
      ghost var p := Path(trail, disk, id, {View(disk, id).(trash := None)});
      PatchSame(p.base, id);
      ok := Attempt(p, id, View(disk, id), View(disk, id).(trash := None));
      if !ok { return false, false; }
      assert |p.base.trash - {id}| == |p.base.trash| - 1;
      MoveUsage(f.info.owner, Some(S.Trash), None, f.size);
      gone := true;
    }

    /** Quota: on a good state whose owner's bytes fit 64 bits, used is what the owner is charged
        for on disk, and available is exactly how large a further charge may be. */
    method OwnerQuota(owner: Owner) returns (r: Outcome<(int, int)>)
      modifies this`usage, this`usageValid, this`loaded, this`loadFailed
      ensures State() == S.Load(old(State()))
      ensures r.Err? <==> loadFailed
      ensures r.Err? ==> r.error == UsageUnavailable
      ensures r.Ok? ==> r.value.0 == S.Total(usage, owner)
      ensures r.Ok? ==> r.value.1 == S.Available(cfg, r.value.0)
      ensures r.Ok? && CanReport(cfg, old(State()), owner) ==> Reports(cfg, State(), owner, r.value.0, r.value.1)
    {
      var failed := EnsureUsage();
      if failed { return Err(UsageUnavailable); }
      var used := S.Total(usage, owner);
      if CanReport(cfg, old(State()), owner) {
        QuotaFigures(cfg, old(State()), owner);
      }
      return Ok((used, S.Available(cfg, used)));
    }

    /** Capacity: the figures of the report that come from the index. In a counted state they are
        the numbers of objects, manifests and trash entries on disk and the sums of their sizes. */
    method ReportCapacity() returns (r: Outcome<E.Figures>)
      modifies this`usage, this`usageValid, this`loaded, this`loadFailed
      ensures State() == S.Load(old(State()))
      ensures r.Err? <==> loadFailed
      ensures r.Ok? ==> r.value == E.Capacity(usage)
      ensures r.Ok? && E.Counted(cfg, old(State())) ==>
        r.value == E.Figures(|disk.objects|, E.Wrapped(Sum(FileCharges(disk), Sizes())), |disk.manifests|,
                             |disk.trash|, E.Wrapped(Sum(TrashCharges(disk), Sizes())))
    {
      var failed := EnsureUsage();
      if failed { return Err(UsageUnavailable); }
      var objects, objectBytes := AddUp(usage.files);
      var trashed, trashBytes := AddUp(usage.trash);
      if E.Counted(cfg, old(State())) {
        I.LoadKeepsInv(cfg, old(State()));
        E.LoadIsExact(old(State()));
        E.CapacityCountsTheDisk(cfg, State());
      }
      return Ok(E.Figures(objects, objectBytes, objects, trashed, trashBytes));
    }

    /** activeCount and bytesOf, trashedCount and bytesInTrash: one pass over a bucket. */
    method AddUp(bucket: Bucket<Owner>) returns (records: int, bytes: int)
      ensures records == TotalRecords(bucket) && bytes == E.Wrapped(TotalBytes(bucket))
    {
      records, bytes := 0, 0;
      var todo := bucket.Keys;
      ghost var seen: Bucket<Owner> := map[];
      ghost var total := 0;
      while todo != {}
        invariant todo <= bucket.Keys && E.Met(seen, bucket, todo)
        invariant records == TotalRecords(seen) && total == TotalBytes(seen) && bytes == E.Wrapped(total)
      {
        var o :| o in todo;
        E.OneMoreMet(seen, bucket, todo, o);
        records := records + bucket[o].records;
        bytes, total := AddBytes(bytes, bucket[o].bytes, total);
        seen, todo := seen[o := bucket[o]], todo - {o};
      }
      E.AllMet(seen, bucket);
    }

    /** An addition on 64 bits. */
    method AddBytes(sum: int, bytes: int, ghost total: int) returns (r: int, ghost after: int)
      requires sum == E.Wrapped(total)
      ensures after == total + bytes && r == E.Wrapped(after)
    {
      E.WrappedSum(total, bytes);
      r, after := E.Wrapped(sum + bytes), total + bytes;
    }

    // -------------------------------------------------------------- readiness

    /** The loops of the readiness probe over metadata/ and objects/. */
    method FilesReady() returns (ok: bool)
      ensures ok <==> disk.manifestTmps == map[] && forall id :: FileReady(View(disk, id), id)
    {
      if disk.manifestTmps.Keys != {} { return false; }
      var todo := disk.manifests.Keys;
      while todo != {}
        invariant todo <= disk.manifests.Keys
        invariant forall id | id in disk.manifests && id !in todo :: FileReady(View(disk, id), id)
      {
        var id :| id in todo;
        if ReadFile(disk, id).Err? || id !in disk.objects {
          assert !FileReady(View(disk, id), id);
          return false;
        }
        todo := todo - {id};
      }
      todo := disk.objects.Keys;
      while todo != {}
        invariant todo <= disk.objects.Keys
        invariant forall id | id in disk.objects && id !in todo :: id in disk.manifests
      {
        var id :| id in todo;
        if id !in disk.manifests {
          assert !FileReady(View(disk, id), id);
          return false;
        }
        todo := todo - {id};
      }
      return true;
    }

    method SessionsReady() returns (ok: bool)
      ensures ok <==> forall id | id in disk.uploads :: SessionReady(disk.uploads[id], id)
    {
      var todo := disk.uploads.Keys;
      while todo != {}
        invariant todo <= disk.uploads.Keys
        invariant forall id | id in disk.uploads && id !in todo :: SessionReady(disk.uploads[id], id)
      {
        var id :| id in todo;
        var dir := disk.uploads[id];
        if dir.manifestTmp.Some? || dir.manifest.None? { return false; }
        var session := ReadSession(disk, id);
        if session.Err? { return false; }
        if session.value.status.Completed? && dir.data.Some? { return false; }
        todo := todo - {id};
      }
      return true;
    }

    method TrashIsReady() returns (ok: bool)
      ensures ok <==> forall id | id in disk.trash :: TrashReady(disk.trash[id], id)
    {
      var todo := disk.trash.Keys;
      while todo != {}
        invariant todo <= disk.trash.Keys
        invariant forall id | id in disk.trash && id !in todo :: TrashReady(disk.trash[id], id)
      {
        var id :| id in todo;
        var dir := disk.trash[id];
        if dir.manifestTmp.Some? || dir.content.None? || dir.manifest.None? { return false; }
        if ReadTrash(disk, id).Err? { return false; }
        todo := todo - {id};
      }
      return true;
    }

    /** Ready: writes and removes a probe file, then looks at everything. Without faults it
        accepts exactly the ready directories; its own file is left only by a removal that
        fails. */
    method CheckReady() returns (ok: bool)
      modifies this`disk, this`trail
      ensures ok ==> Ready(old(disk))
      ensures !mayFail ==> (ok <==> Ready(old(disk)))
      ensures disk == old(disk) || (mayFail && !ok && disk == old(disk).(probe := true))
      ensures ok ==> trail == old(trail) + [old(disk).(probe := true)] + [old(disk)]
      ensures old(trail) <= trail
      ensures forall i | |old(trail)| <= i < |trail| :: trail[i] == old(disk) || trail[i] == old(disk).(probe := true)
    {
      var before := disk.probe;
      var called := Call();
      if !called { return false; }
      disk := disk.(probe := true);
      trail := trail + [disk];
      called := Call();
      if !called { return false; }
      disk := disk.(probe := before);
      trail := trail + [disk];
      ReadyInParts(disk);
      var files := FilesReady();
      if !files { return false; }
      var sessions := SessionsReady();
      if !sessions { return false; }
      var trash := TrashIsReady();
      if !trash { return false; }
      ok := disk.parts.Keys == {} && !disk.probe;
    }

    // -------------------------------------------------------------- Recover

    /** quarantinePath: an artifact of disk goes to quarantine, d being the directory in which
        Recover started and moved what it has taken from there. A file is renamed; a directory
        is copied and then removed, so that a failure can leave it in both places, or a part of
        it in quarantine. */
    method QuarantinePath(ghost d: Disk, ghost moved: map<Leftover, Artifact>, l: Leftover, now: int)
      returns (ok: bool, ghost more: map<Leftover, Artifact>)
      requires Q.Progress(d, disk, moved, now) && Q.Found(disk, l).Some? && Q.Alone(disk, l) && Q.PartlyCleaned(d, disk)
      modifies this`disk, this`trail
      ensures ok ==> disk == Q.Without(old(disk), l).(quarantine := disk.quarantine) && Q.Progress(d, disk, more, now)
      ensures !ok ==> disk == old(disk).(quarantine := disk.quarantine) && more == moved
      ensures Q.OthersKept(old(disk).quarantine, disk.quarantine, Q.Target(old(disk).quarantine, l, now))
      ensures Q.PartlyCleaned(d, disk) && CleanTrail(old(trail), trail, d)
      ensures !mayFail && Q.CanQuarantine(d, now) ==> ok
    {
      more := moved;
      Q.OneMove(d, disk, moved, l, now);
      var x := Q.Found(disk, l).value;
      var n, placed := Q.Target(disk.quarantine, l, now), Q.Placed(disk.quarantine, l, x, now);
      if placed.None? { return false, more; }
      var rest := Q.Without(disk, l).(quarantine := disk.quarantine[n := placed.value]);
      if x.SessionTree? {
        ok := CopyTree(d, n, placed.value);
        if !ok { return; }
      }
      ok := Call();
      if !ok { return; }
      CleanTrailGrows(old(trail), trail, d, rest);
      more := moved[l := x];
      disk := rest;
      trail := trail + [disk];
    }

    /** copyTree: the target is complete, or whatever had been copied when it failed. */
    method CopyTree(ghost d: Disk, n: QuarantineName, tree: Artifact) returns (ok: bool)
      requires Q.PartlyCleaned(d, disk)
      modifies this`disk, this`trail
      ensures disk == old(disk).(quarantine := disk.quarantine)
      ensures ok ==> disk.quarantine == old(disk).quarantine[n := tree]
      ensures !ok ==> disk.quarantine == old(disk).quarantine
                      || exists data :: disk.quarantine == old(disk).quarantine[n := SessionTree(data)]
      ensures Q.OthersKept(old(disk).quarantine, disk.quarantine, n)
      ensures Q.PartlyCleaned(d, disk) && CleanTrail(old(trail), trail, d)
      ensures !mayFail ==> ok
    {
      var made := Call();
      if !made { return false; }
      ok := Call();
      if ok {
        disk := disk.(quarantine := disk.quarantine[n := tree]);
      } else {
        var data: Option<Bytes> := *;
        disk := disk.(quarantine := disk.quarantine[n := SessionTree(data)]);
      }
      CleanTrailGrows(trail, trail, d, disk);
      trail := trail + [disk];
    }

    method QuarantinePart(ghost d: Disk, ghost before: map<Leftover, Artifact>, id: Id, now: int)
      returns (ok: bool, ghost moved: map<Leftover, Artifact>)
      requires disk == d.(parts := disk.parts, quarantine := disk.quarantine) && id in disk.parts
      requires Q.Progress(d, disk, before, now) && Q.PartlyCleaned(d, disk)
      modifies this`disk, this`trail
      ensures disk == old(disk).(parts := disk.parts, quarantine := disk.quarantine)
      ensures ok ==> |disk.parts| == |old(disk).parts| - 1 && Q.Progress(d, disk, moved, now)
      ensures Q.PartlyCleaned(d, disk) && CleanTrail(old(trail), trail, d)
      ensures !mayFail && Q.CanQuarantine(d, now) ==> ok
    {
      OneLess(disk.parts, id);
      ok, moved := QuarantinePath(d, before, PartialObject(id), now);
    }

    /** The loop over tmp/. */
    method QuarantineParts(ghost d: Disk, now: int) returns (count: nat, ok: bool, ghost moved: map<Leftover, Artifact>)
      requires disk == d
      modifies this`disk, this`trail
      ensures disk == d.(parts := disk.parts, quarantine := disk.quarantine)
      ensures ok ==> disk.parts == map[] && count == |d.parts| && Q.Progress(d, disk, moved, now)
      ensures Q.PartlyCleaned(d, disk) && CleanTrail(old(trail), trail, d)
      ensures d.parts == map[] ==> ok && disk == d
      ensures !mayFail && Q.CanQuarantine(d, now) ==> ok
    {
      moved, count := map[], 0;
      Q.NothingMoved(d, now);
      while disk.parts.Keys != {}
        invariant disk == d.(parts := disk.parts, quarantine := disk.quarantine)
        invariant Q.Progress(d, disk, moved, now) && Q.PartlyCleaned(d, disk) && CleanTrail(old(trail), trail, d)
        invariant d.parts == map[] ==> disk == d
        invariant count == |d.parts| - |disk.parts|
        decreases |disk.parts|
      {
        var id :| id in disk.parts.Keys;
        ghost var middle := trail;
        ok, moved := QuarantinePart(d, moved, id, now);
        CleanTrails(old(trail), middle, trail, d);
        if !ok { return; }
        count := count + 1;
      }
      ok := true;
    }

    method QuarantineManifest(ghost d: Disk, ghost before: map<Leftover, Artifact>, id: Id, now: int)
      returns (ok: bool, ghost moved: map<Leftover, Artifact>)
      requires disk == d.(parts := map[], manifestTmps := disk.manifestTmps, quarantine := disk.quarantine)
      requires id in disk.manifestTmps
      requires Q.Progress(d, disk, before, now) && Q.PartlyCleaned(d, disk)
      modifies this`disk, this`trail
      ensures disk == old(disk).(manifestTmps := disk.manifestTmps, quarantine := disk.quarantine)
      ensures ok ==> |disk.manifestTmps| == |old(disk).manifestTmps| - 1 && Q.Progress(d, disk, moved, now)
      ensures Q.PartlyCleaned(d, disk) && CleanTrail(old(trail), trail, d)
      ensures !mayFail && Q.CanQuarantine(d, now) ==> ok
    {
      OneLess(disk.manifestTmps, id);
      ok, moved := QuarantinePath(d, before, MetadataTmp(id), now);
    }

    /** The loop over metadata/. */
    method QuarantineManifests(ghost d: Disk, ghost before: map<Leftover, Artifact>, now: int)
      returns (count: nat, ok: bool, ghost moved: map<Leftover, Artifact>)
      requires disk == d.(parts := map[], quarantine := disk.quarantine) && Q.Progress(d, disk, before, now)
      requires Q.PartlyCleaned(d, disk)
      modifies this`disk, this`trail
      ensures disk == d.(parts := map[], manifestTmps := disk.manifestTmps, quarantine := disk.quarantine)
      ensures ok ==> disk.manifestTmps == map[] && count == |d.manifestTmps| && Q.Progress(d, disk, moved, now)
      ensures Q.PartlyCleaned(d, disk) && CleanTrail(old(trail), trail, d)
      ensures d.manifestTmps == map[] ==> ok && disk == old(disk)
      ensures !mayFail && Q.CanQuarantine(d, now) ==> ok
    {
      moved, count := before, 0;
      while disk.manifestTmps.Keys != {}
        invariant disk == d.(parts := map[], manifestTmps := disk.manifestTmps, quarantine := disk.quarantine)
        invariant Q.Progress(d, disk, moved, now) && Q.PartlyCleaned(d, disk) && CleanTrail(old(trail), trail, d)
        invariant d.manifestTmps == map[] ==> disk == old(disk)
        invariant count == |d.manifestTmps| - |disk.manifestTmps|
        decreases |disk.manifestTmps|
      {
        var id :| id in disk.manifestTmps.Keys;
        ghost var middle := trail;
        ok, moved := QuarantineManifest(d, moved, id, now);
        CleanTrails(old(trail), middle, trail, d);
        if !ok { return; }
        count := count + 1;
      }
      ok := true;
    }

    /** The staged manifest of a session goes first. */
    method QuarantineStaged(ghost d: Disk, ghost before: map<Leftover, Artifact>, id: Id, now: int)
      returns (staged: bool, ok: bool, ghost moved: map<Leftover, Artifact>)
      requires Q.Progress(d, disk, before, now) && Q.PartlyCleaned(d, disk) && id in disk.uploads
      modifies this`disk, this`trail
      ensures disk == old(disk).(uploads := disk.uploads, quarantine := disk.quarantine)
      ensures ok ==> disk.uploads == SetAt(old(disk).uploads, id, Some(old(disk).uploads[id].(manifestTmp := None)))
      ensures ok ==> staged == old(disk).uploads[id].manifestTmp.Some? && Q.Progress(d, disk, moved, now)
      ensures old(disk).uploads[id].manifestTmp.None? ==> ok && disk == old(disk)
      ensures Q.PartlyCleaned(d, disk) && CleanTrail(old(trail), trail, d)
      ensures !mayFail && Q.CanQuarantine(d, now) ==> ok
    {
      moved, staged, ok := before, false, true;
      SetSame(disk.uploads, id);
      if disk.uploads[id].manifestTmp.Some? {
        staged := true;
        ok, moved := QuarantinePath(d, moved, UploadTmp(id), now);
      }
    }

    /** One turn of the loop over uploads/: then the whole directory when it has no manifest. */
    method QuarantineSession(ghost d: Disk, ghost before: map<Leftover, Artifact>, id: Id, now: int)
      returns (staged: bool, bare: bool, ok: bool, ghost moved: map<Leftover, Artifact>)
      requires Q.Progress(d, disk, before, now) && Q.PartlyCleaned(d, disk) && id in disk.uploads
      modifies this`disk, this`trail
      ensures disk == old(disk).(uploads := disk.uploads, quarantine := disk.quarantine)
      ensures ok ==> disk.uploads == SetAt(old(disk).uploads, id, Q.KeptDir(old(disk).uploads[id]))
      ensures ok ==>
        && staged == old(disk).uploads[id].manifestTmp.Some? && bare == old(disk).uploads[id].manifest.None?
        && Q.Progress(d, disk, moved, now)
      ensures Q.TidyDir(old(disk).uploads[id]) ==> ok && disk == old(disk)
      ensures Q.PartlyCleaned(d, disk) && CleanTrail(old(trail), trail, d)
      ensures !mayFail && Q.CanQuarantine(d, now) ==> ok
    {
      ghost var uploads, dir := disk.uploads, disk.uploads[id];
      bare := disk.uploads[id].manifest.None?;
      staged, ok, moved := QuarantineStaged(d, before, id, now);
      if !ok { return; }
      if bare {
        ghost var middle := trail;
        SetSet(uploads, id, Some(dir.(manifestTmp := None)), None);
        ok, moved := QuarantinePath(d, moved, UploadDir(id), now);
        CleanTrails(old(trail), middle, trail, d);
      }
    }

    method QuarantineEntry(
      ghost d: Disk, ghost before: map<Leftover, Artifact>, entries: seq<Id>, i: nat, now: int, staged: nat, bare: nat)
      returns (nowStaged: nat, nowBare: nat, ok: bool, ghost moved: map<Leftover, Artifact>)
      requires S.Lists(entries, d.uploads.Keys) && i < |entries|
      requires KeptSoFar(d.uploads, disk.uploads, entries, i, staged, bare)
      requires Q.Progress(d, disk, before, now) && Q.PartlyCleaned(d, disk)
      modifies this`disk, this`trail
      ensures disk == old(disk).(uploads := disk.uploads, quarantine := disk.quarantine)
      ensures ok ==> Q.Progress(d, disk, moved, now)
      ensures ok ==> KeptSoFar(d.uploads, disk.uploads, entries, i + 1, nowStaged, nowBare)
      ensures entries[i] in d.uploads && (Q.TidyDir(d.uploads[entries[i]]) ==> ok && disk == old(disk))
      ensures Q.PartlyCleaned(d, disk) && CleanTrail(old(trail), trail, d)
      ensures !mayFail && Q.CanQuarantine(d, now) ==> ok
    {
      Q.KeptOneMore(d.uploads, entries, i);
      var wasStaged, wasBare;
      wasStaged, wasBare, ok, moved := QuarantineSession(d, before, entries[i], now);
      nowStaged := if wasStaged then staged + 1 else staged;
      nowBare := if wasBare then bare + 1 else bare;
    }

    /** The loop over uploads/. */
    method QuarantineSessions(ghost d: Disk, ghost before: map<Leftover, Artifact>, now: int)
      returns (staged: nat, bare: nat, ok: bool, ghost moved: map<Leftover, Artifact>)
      requires disk == d.(parts := map[], manifestTmps := map[], quarantine := disk.quarantine)
      requires Q.Progress(d, disk, before, now) && Q.PartlyCleaned(d, disk)
      modifies this`disk, this`trail
      ensures disk == old(disk).(uploads := disk.uploads, quarantine := disk.quarantine)
      ensures ok ==> disk.uploads == Q.KeptSessions(d.uploads) && Q.Progress(d, disk, moved, now)
      ensures ok ==> staged == |Q.StagedSessions(d.uploads)| && bare == |Q.BareSessions(d.uploads)|
      ensures AllTidy(d.uploads) ==> ok && disk == old(disk)
      ensures Q.PartlyCleaned(d, disk) && CleanTrail(old(trail), trail, d)
      ensures !mayFail && Q.CanQuarantine(d, now) ==> ok
    {
      moved, staged, bare := before, 0, 0;
      var entries := ReadDir(disk.uploads.Keys);
      NothingKeptYet(d.uploads, entries);
      var i := 0;
      while i < |entries|
        invariant 0 <= i <= |entries|
        invariant disk == old(disk).(uploads := disk.uploads, quarantine := disk.quarantine)
        invariant Q.Progress(d, disk, moved, now) && Q.PartlyCleaned(d, disk) && CleanTrail(old(trail), trail, d)
        invariant KeptSoFar(d.uploads, disk.uploads, entries, i, staged, bare)
        invariant AllTidy(d.uploads) ==> disk == old(disk)
      {
        ghost var middle := trail;
        staged, bare, ok, moved := QuarantineEntry(d, moved, entries, i, now, staged, bare);
        CleanTrails(old(trail), middle, trail, d);
        if !ok { return; }
        i := i + 1;
      }
      AllKept(d.uploads, disk.uploads, entries, staged, bare);
      ok := true;
    }

    /** The three loops. A failure leaves a part of the leftovers where they were; where there
        are none nothing can fail. */
    method ClearLeftovers(now: int) returns (parts: nat, manifests: nat, staged: nat, bare: nat, ok: bool)
      modifies this`disk, this`trail
      ensures ok ==> Q.CanQuarantine(old(disk), now) && disk == Q.Cleaned(old(disk), now)
      ensures ok ==> parts == |old(disk).parts| && manifests == |old(disk).manifestTmps|
      ensures ok ==> staged == |Q.StagedSessions(old(disk).uploads)| && bare == |Q.BareSessions(old(disk).uploads)|
      ensures Q.PartlyCleaned(old(disk), disk) && CleanTrail(old(trail), trail, old(disk))
      ensures Q.Tidy(old(disk)) ==> ok && disk == old(disk)
      ensures !mayFail && Q.CanQuarantine(old(disk), now) ==> ok
    {
      ghost var d, moved := disk, map[];
      manifests, staged, bare := 0, 0, 0;
      parts, ok, moved := QuarantineParts(d, now);
      if !ok { return; }
      manifests, ok, moved := QuarantineManifests(d, moved, now);
      if !ok { return; }
      staged, bare, ok, moved := QuarantineSessions(d, moved, now);
      if !ok { return; }
      Q.AllMoved(d, disk, moved, now);
    }

    /** The sweep of Recover, which reports how many sessions it removed. */
    method ExpireUploads(now: int) returns (expired: nat, ok: bool, ghost listing: seq<Id>, ghost upTo: nat)
      modifies this
      ensures S.Lists(listing, old(disk).uploads.Keys) && upTo <= |listing|
      ensures State() == S.SweepAll(cfg, old(State()), listing[..upTo], now)
      ensures ok ==> State() == S.SweepAll(cfg, old(State()), listing, now)
      ensures ok ==> expired == |old(disk).uploads.Keys - Q.Swept(cfg, old(disk), now).uploads.Keys|
      ensures disk == old(disk).(uploads := disk.uploads)
      ensures SweepTrail(old(trail), trail, cfg, old(State()), listing, now)
      ensures !mayFail ==> ok
    {
      ghost var before := State();
      expired, ok, listing, upTo := SweepUploads(now);
      Q.SweepIsExpiry(cfg, before, listing[..upTo], now);
      if ok {
        assert listing[..upTo] == listing;
        Q.FullSweep(cfg, before, listing, now);
        Q.SweptCount(cfg, before.disk, now);
      }
    }

    /** Recover up to the rescan: the leftovers and the sweep, with the report. */
    method CleanAndSweep(now: int) returns (report: Q.Report, ok: bool, ghost listing: seq<Id>, ghost upTo: nat)
      modifies this
      ensures ok ==> Q.CanQuarantine(old(disk), now) && S.Lists(listing, Q.KeptSessions(old(disk).uploads).Keys)
      ensures ok ==> State() == S.SweepAll(cfg, old(State()).(disk := Q.Cleaned(old(disk), now)), listing, now)
      ensures ok ==> report == Q.ReportOf(cfg, old(disk), now)
      ensures !ok ==>
        || (!Q.Tidy(old(disk)) && State() == old(State()).(disk := disk) && Q.PartlyCleaned(old(disk), disk))
        || (Q.CanQuarantine(old(disk), now) && upTo <= |listing|
            && State() == S.SweepAll(cfg, old(State()).(disk := Q.Cleaned(old(disk), now)), listing[..upTo], now))
      ensures disk.objects == old(disk).objects && disk.manifests == old(disk).manifests
      ensures disk.trash == old(disk).trash
      ensures RecoverTrail(old(trail), trail, cfg, old(State()), listing, now)
      ensures !mayFail && Q.CanQuarantine(old(disk), now) ==> ok
    {
      listing, upTo := [], 0;
      ghost var s := State();
      var parts, manifests, staged, bare;
      parts, manifests, staged, bare, ok := ClearLeftovers(now);
      ghost var middle := trail;
      report := Q.Report(parts, manifests, staged, bare, 0);
      RecoverTrailOf(old(trail), middle, trail, cfg, s, listing, now);
      if !ok { return; }
      var expired;
      expired, ok, listing, upTo := ExpireUploads(now);
      report := report.(expiredUploads := expired);
      RecoverTrailOf(old(trail), middle, trail, cfg, s, listing, now);
    }

    /** Recover: the leftovers, the sweep, and a rescan when anything was repaired. Under every
        error the active and trashed files are as they were; the index and its flags are
        untouched unless all leftovers have been cleared, and then they follow the sessions that
        the sweep has removed. */
    method Recover(now: int) returns (r: Outcome<Q.Report>, ghost listing: seq<Id>, ghost upTo: nat)
      modifies this
      ensures r != Err(Io)
              ==> Q.CanQuarantine(old(disk), now) && S.Lists(listing, Q.KeptSessions(old(disk).uploads).Keys)
      ensures r != Err(Io) ==> (State(), r) == Q.Recover(cfg, old(State()), listing, now)
      ensures disk.objects == old(disk).objects && disk.manifests == old(disk).manifests
      ensures disk.trash == old(disk).trash
      ensures r == Err(Io) ==>
        || (!Q.Tidy(old(disk)) && State() == old(State()).(disk := disk) && Q.PartlyCleaned(old(disk), disk))
        || (Q.CanQuarantine(old(disk), now) && upTo <= |listing|
            && State() == S.SweepAll(cfg, old(State()).(disk := Q.Cleaned(old(disk), now)), listing[..upTo], now))
      ensures RecoverTrail(old(trail), trail, cfg, old(State()), listing, now)
      ensures !mayFail && Q.CanQuarantine(old(disk), now) ==> r != Err(Io)
    {
      var report, ok;
      report, ok, listing, upTo := CleanAndSweep(now);
      if !ok { return Err(Io), listing, upTo; }
      if report.Recovered() {
        var failed := RebuildUsage();
        if failed { return Err(UsageUnavailable), listing, upTo; }
      }
      return Ok(report), listing, upTo;
    }
  }
}
