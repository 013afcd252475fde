/** The file-system steps of each operation and the directories it passes through. */
module Trails {
  import opened Basics
  import opened DiskModel

  // A trail lists the directory after every step of a run that succeeds, so the last entry is what
  // the operation commits, and a crash leaves the store with some entry of the trail, or with a
  // prefix of the bytes written in a step that writes data.

  /** The trail that takes one file identifier through the given slots. */
  function Through(d: Disk, id: Id, slots: seq<Slot>): (t: seq<Disk>)
    ensures |t| == |slots|
  {
    seq(|slots|, i requires 0 <= i < |slots| => Patch(d, id, slots[i]))
  }

  /** The trail that takes one session directory through the given states. */
  function ThroughSession(d: Disk, id: Id, dirs: seq<SessionDir>): (t: seq<Disk>)
    ensures |t| == |dirs|
  {
    seq(|dirs|, i requires 0 <= i < |dirs| => PatchSession(d, id, Some(dirs[i])))
  }

  /** An active file. */
  function StoredSlot(bytes: Bytes, f: File): Slot {
    VACANT.(content := Some(bytes), manifest := Some(f))
  }

  /** Put: stage the body, rename it into objects/, stage the manifest, rename it. */
  function PutSlots(bytes: Bytes, f: File): (s: seq<Slot>)
    ensures |s| == 6
  {
    var stored := VACANT.(content := Some(bytes));
    [ VACANT.(part := Some([])),
      VACANT.(part := Some(bytes)),
      stored,
      stored.(manifestTmp := Some(Torn)),
      stored.(manifestTmp := Some(Whole(f))),
      StoredSlot(bytes, f) ]
  }

  function StartedDir(u: Session): SessionDir {
    SessionDir(Some(u), None, Some([]))
  }

  /** StartUpload: directory, empty data.part, staged manifest, manifest. */
  function StartDirs(u: Session): (s: seq<SessionDir>)
    ensures |s| == 5
  {
    [ SessionDir(None, None, None),
      SessionDir(None, None, Some([])),
      SessionDir(None, Some(Torn), Some([])),
      SessionDir(None, Some(Whole(u)), Some([])),
      StartedDir(u) ]
  }

  function AppendedDir(dir: SessionDir, chunk: Bytes, u: Session): SessionDir
    requires dir.data.Some?
  {
    dir.(data := Some(dir.data.value + chunk), manifest := Some(u))
  }

  /** AppendUpload: extend data.part, then replace the manifest that counts its bytes. */
  function AppendDirs(dir: SessionDir, chunk: Bytes, u: Session): (s: seq<SessionDir>)
    requires dir.data.Some?
    ensures |s| == 4
  {
    var longer := dir.(data := Some(dir.data.value + chunk));
    [ longer,
      longer.(manifestTmp := Some(Torn)),
      longer.(manifestTmp := Some(Whole(u))),
      AppendedDir(dir, chunk, u) ]
  }

  /** What CompleteUpload commits: the file, and a session without data that names it. */
  function CompletedDisk(d: Disk, id: Id, fileId: Id, f: File, u: Session): Disk
    requires id in d.uploads && d.uploads[id].data.Some?
  {
    PatchSession(Patch(d, fileId, StoredSlot(d.uploads[id].data.value, f)), id,
                 Some(d.uploads[id].(data := None, manifest := Some(u))))
  }

  /** CompleteUpload: rename data.part into objects/, stage and rename the file's manifest,
      then stage and rename the session's. */
  function CompleteTrail(d: Disk, id: Id, fileId: Id, f: File, u: Session): (t: seq<Disk>)
    requires id in d.uploads && d.uploads[id].data.Some?
    ensures |t| == 7
  {
    var dir := d.uploads[id].(data := None);
    var taken := PatchSession(d, id, Some(dir));
    var stored := VACANT.(content := d.uploads[id].data);
    var shown := Patch(d, fileId, StoredSlot(d.uploads[id].data.value, f));
    [ Patch(taken, fileId, stored),
      Patch(taken, fileId, stored.(manifestTmp := Some(Torn))),
      Patch(taken, fileId, stored.(manifestTmp := Some(Whole(f)))),
      PatchSession(shown, id, Some(dir)),
      PatchSession(shown, id, Some(dir.(manifestTmp := Some(Torn)))),
      PatchSession(shown, id, Some(dir.(manifestTmp := Some(Whole(u))))),
      CompletedDisk(d, id, fileId, f, u) ]
  }

  /** What Delete commits. */
  function DeletedSlot(s: Slot, f: File): Slot {
    s.(content := None, manifest := None, trash := Some(TrashDir(s.content, Some(f), None)))
  }

  /** What Restore commits. */
  function RestoredSlot(s: Slot, f: File): Slot
    requires s.trash.Some?
  {
    s.(trash := None, content := s.trash.value.content, manifest := Some(f))
  }

  /** Delete: the object moves first, then the manifest, which then gets its deletion time. */
  function DeleteSlots(s: Slot, f: File): (t: seq<Slot>)
    ensures |t| == 6
  {
    var dir := TrashDir(s.content, s.manifest, None);
    var gone := s.(content := None, manifest := None);
    [ s.(trash := Some(TrashDir(None, None, None))),
      s.(content := None, trash := Some(TrashDir(s.content, None, None))),
      gone.(trash := Some(dir)),
      gone.(trash := Some(dir.(manifestTmp := Some(Torn)))),
      gone.(trash := Some(dir.(manifestTmp := Some(Whole(f))))),
      DeletedSlot(s, f) ]
  }

  /** Restore: the manifest loses its deletion time, then object and manifest move back. */
  function RestoreSlots(s: Slot, f: File): (t: seq<Slot>)
    requires s.trash.Some?
    ensures |t| == 6
  {
    var dir := s.trash.value;
    var cleared := dir.(manifest := Some(f));
    [ s.(trash := Some(dir.(manifestTmp := Some(Torn)))),
      s.(trash := Some(dir.(manifestTmp := Some(Whole(f))))),
      s.(trash := Some(cleared)),
      s.(trash := Some(cleared.(content := None)), content := dir.content),
      s.(trash := Some(TrashDir(None, None, None)), content := dir.content, manifest := Some(f)),
      RestoredSlot(s, f) ]
  }

  /** The trash entry whose manifest has lost its deletion time. */
  function RestoreCleared(d: Disk, id: Id): Disk {
    if ReadTrash(d, id).Err? then d
    else
      var dir := d.trash[id];
      Patch(d, id, View(d, id).(trash := Some(dir.(manifest := Some(dir.manifest.value.(deletedAt := None))))))
  }

  /** The manifest active again, the object back in trash. */
  function RestoreSplit(d: Disk, id: Id): Disk {
    if ReadTrash(d, id).Err? then d
    else
      var dir := d.trash[id];
      Patch(d, id, View(d, id).(manifest := Some(dir.manifest.value.(deletedAt := None)), content := None,
                                trash := Some(TrashDir(dir.content, None, None))))
  }

  // ---------------------------------------------------------------- what readers can see

  /** A trail through slots touches no other identifier and no session. */
  lemma ThroughTouchesOne(d: Disk, id: Id, slots: seq<Slot>, i: nat, x: Id)
    requires i < |slots|
    ensures Through(d, id, slots)[i].uploads == d.uploads
    ensures View(Through(d, id, slots)[i], x) == if x == id then slots[i] else View(d, x)
  {
    ViewPatch(d, id, slots[i], x);
  }

  /** At every step of Put the new identifier is either invisible or visible with all of
      its bytes, and every other identifier is as it was. */
  lemma PutNeverShowsHalfAFile(sha: Bytes -> string, d: Disk, id: Id, bytes: Bytes, f: File, i: nat, x: Id)
    requires i < 6 && View(d, id) == VACANT
    requires f.checksum == sha(bytes) && f.size == |bytes|
    ensures
      var at := Through(d, id, PutSlots(bytes, f))[i];
      && at.uploads == d.uploads
      && (x != id ==> View(at, x) == View(d, x))
      && (id in at.manifests <==> i == 5)
      && (id in at.manifests ==> id in at.objects && Complete(sha, at.manifests[id], at.objects[id]))
  {
    ThroughTouchesOne(d, id, PutSlots(bytes, f), i, x);
    ThroughTouchesOne(d, id, PutSlots(bytes, f), i, id);
  }

  /** How many copies of the bytes, and of the record, a slot holds. */
  function Copies(s: Slot): nat {
    (if s.content.Some? then 1 else 0) + (if s.trash.Some? && s.trash.value.content.Some? then 1 else 0)
  }

  function Copy(s: Slot): Bytes
    requires Copies(s) == 1
  {
    if s.content.Some? then s.content.value else s.trash.value.content.value
  }

  function Records(s: Slot): nat {
    (if s.manifest.Some? then 1 else 0) + (if s.trash.Some? && s.trash.value.manifest.Some? then 1 else 0)
  }

  /** At every step of Delete exactly one copy of the bytes exists, in objects/ or in
      trash/, always the same bytes, under exactly one record. */
  lemma DeleteKeepsOneCopy(d: Disk, id: Id, f: File, i: nat)
    requires i < 6 && id in d.objects && id in d.manifests && id !in d.trash
    ensures
      var at := View(Through(d, id, DeleteSlots(View(d, id), f))[i], id);
      Copies(at) == 1 && Copy(at) == d.objects[id] && Records(at) == 1
  {
    ThroughTouchesOne(d, id, DeleteSlots(View(d, id), f), i, id);
  }

  lemma RestoreKeepsOneCopy(d: Disk, id: Id, f: File, i: nat)
    requires i < 6 && id in d.trash && d.trash[id].content.Some? && d.trash[id].manifest.Some?
    requires id !in d.objects && id !in d.manifests
    ensures
      var at := View(Through(d, id, RestoreSlots(View(d, id), f))[i], id);
      Copies(at) == 1 && Copy(at) == d.trash[id].content.value && Records(at) == 1
  {
    ThroughTouchesOne(d, id, RestoreSlots(View(d, id), f), i, id);
  }

  // ---------------------------------------------------------------- every step under every result

  /** Since the trail was `was` only entries of one identifier have changed, and only to these. */
  ghost predicate Steps(was: seq<Disk>, now: seq<Disk>, d: Disk, id: Id, slots: set<Slot>) {
    was <= now && forall i | |was| <= i < |now| :: IsStep(now[i], d, id, slots)
  }

  ghost predicate IsStep(e: Disk, d: Disk, id: Id, slots: set<Slot>) {
    exists s :: s in slots && e == Patch(d, id, s)
  }

  /** The slots that writeManifest passes through before its rename, forward and back. */
  function StagedSteps(s: Slot, f: File): set<Slot> {
    {s, s.(manifestTmp := Some(Torn)), s.(manifestTmp := Some(Whole(f)))}
  }

  function ManifestSteps(s: Slot, f: File): set<Slot> {
    StagedSteps(s, f) + {s.(manifest := Some(f))}
  }

  function TrashManifestSteps(s: Slot, f: File): set<Slot>
    requires s.trash.Some?
  {
    var dir := s.trash.value;
    {s, s.(trash := Some(dir.(manifestTmp := Some(Torn)))), s.(trash := Some(dir.(manifestTmp := Some(Whole(f))))),
     s.(trash := Some(dir.(manifest := Some(f))))}
  }

  /** Every slot that Put can pass through before its last rename, forward and back. */
  function PutSteps(free: Slot, bytes: Bytes, f: File): set<Slot> {
    {free, free.(part := Some([])), free.(part := Some(bytes))} + StagedSteps(free.(content := Some(bytes)), f)
  }

  function DeleteSteps(v: Slot, f: File): set<Slot> {
    var gone := v.(content := None, manifest := None, trash := Some(TrashDir(v.content, v.manifest, None)));
    {v, v.(trash := Some(TrashDir(None, None, None))),
     v.(content := None, trash := Some(TrashDir(v.content, None, None))),
     gone.(content := v.content, trash := Some(TrashDir(None, v.manifest, None)))} + TrashManifestSteps(gone, f)
  }

  function RestoreSteps(v: Slot, f: File): set<Slot>
    requires v.trash.Some?
  {
    var dir := v.trash.value;
    {v.(content := dir.content, trash := Some(dir.(content := None, manifest := Some(f)))),
     v.(content := dir.content, manifest := Some(f), trash := Some(TrashDir(None, None, None))),
     v.(manifest := Some(f), content := None, trash := Some(TrashDir(dir.content, None, None))),
     RestoredSlot(v, f)} + TrashManifestSteps(v, f)
  }

  /** A visible file has all its bytes. */
  predicate WholeOrHidden(sha: Bytes -> string, s: Slot) {
    s.manifest.Some? ==> s.content.Some? && Complete(sha, s.manifest.value, s.content.value)
  }

  /** Nothing but the entries of id differs from d, and a visible file has all its bytes. */
  predicate NeverHalf(sha: Bytes -> string, d: Disk, id: Id, e: Disk) {
    var s := View(e, id);
    e == Patch(d, id, s) && WholeOrHidden(sha, s)
  }

  /** Nothing but the entries of id differs from d, and its bytes exist once, under one record. */
  predicate OneCopy(d: Disk, id: Id, bytes: Bytes, e: Disk) {
    var s := View(e, id);
    e == Patch(d, id, s) && Copies(s) == 1 && Copy(s) == bytes && Records(s) == 1
  }

  lemma PutSlotWholeOrHidden(sha: Bytes -> string, v: Slot, bytes: Bytes, f: File, s: Slot)
    requires v.manifest.None? && s in PutSteps(v, bytes, f)
    ensures WholeOrHidden(sha, s)
  {}

  lemma StepIsWholeOrHidden(sha: Bytes -> string, e: Disk, d: Disk, id: Id, slots: set<Slot>)
    requires IsStep(e, d, id, slots) && forall s | s in slots :: WholeOrHidden(sha, s)
    ensures NeverHalf(sha, d, id, e)
  {
    var s :| s in slots && e == Patch(d, id, s);
    ViewPatch(d, id, s, id);
  }

  /** A Put on its way: what it has done so far, or all but the last of its steps. */
  ghost predicate PutOnTheWay(was: seq<Disk>, now: seq<Disk>, d: Disk, id: Id, bytes: Bytes, f: File) {
    Steps(was, now, d, id, PutSteps(View(d, id), bytes, f))
  }

  lemma NothingOnTheWay(was: seq<Disk>, d: Disk, id: Id, bytes: Bytes, f: File)
    ensures PutOnTheWay(was, was, d, id, bytes, f)
  {}

  /** Under every error return, and after any number of steps forward and back, Put shows the
      file completely or not at all. */
  lemma PutStepsNeverHalf(sha: Bytes -> string, was: seq<Disk>, now: seq<Disk>, d: Disk, id: Id, bytes: Bytes, f: File)
    requires PutOnTheWay(was, now, d, id, bytes, f) && View(d, id).manifest.None?
    ensures forall i | |was| <= i < |now| :: NeverHalf(sha, d, id, now[i])
  {
    var slots := PutSteps(View(d, id), bytes, f);
    forall s | s in slots ensures WholeOrHidden(sha, s) {
      PutSlotWholeOrHidden(sha, View(d, id), bytes, f, s);
    }
    forall i | |was| <= i < |now| ensures NeverHalf(sha, d, id, now[i]) {
      StepIsWholeOrHidden(sha, now[i], d, id, slots);
    }
  }

  lemma StoredIsWhole(sha: Bytes -> string, d: Disk, id: Id, bytes: Bytes, f: File)
    requires f.checksum == sha(bytes) && f.size == |bytes|
    ensures NeverHalf(sha, d, id, Patch(d, id, StoredSlot(bytes, f)))
  {
    ViewPatch(d, id, StoredSlot(bytes, f), id);
  }

  /** The same for all the steps of a Put, the last one of a success included. */
  lemma PutTrailNeverHalf(
    sha: Bytes -> string, was: seq<Disk>, now: seq<Disk>, d: Disk, id: Id, bytes: Bytes, f: File, done: bool)
    requires done ==> |now| > |was| && now[|now| - 1] == Patch(d, id, StoredSlot(bytes, f))
    requires PutOnTheWay(was, if done then now[..|now| - 1] else now, d, id, bytes, f)
    requires View(d, id).manifest.None? && f.checksum == sha(bytes) && f.size == |bytes|
    ensures forall i | |was| <= i < |now| :: NeverHalf(sha, d, id, now[i])
  {
    var before := if done then now[..|now| - 1] else now;
    PutStepsNeverHalf(sha, was, before, d, id, bytes, f);
    StoredIsWhole(sha, d, id, bytes, f);
    forall i | |was| <= i < |now| ensures NeverHalf(sha, d, id, now[i]) {
      if i < |before| {
        assert now[i] == before[i];
      }
    }
  }

  predicate HoldsOnce(s: Slot, bytes: Bytes) {
    Copies(s) == 1 && Copy(s) == bytes && Records(s) == 1
  }

  lemma DeleteSlotHoldsOnce(v: Slot, f: File, s: Slot)
    requires v.content.Some? && v.manifest.Some? && v.trash.None? && s in DeleteSteps(v, f)
    ensures HoldsOnce(s, v.content.value)
  {}

  lemma RestoreSlotHoldsOnce(v: Slot, f: File, s: Slot)
    requires v.trash.Some? && v.trash.value.content.Some? && v.trash.value.manifest.Some?
    requires v.content.None? && v.manifest.None? && s in RestoreSteps(v, f)
    ensures HoldsOnce(s, v.trash.value.content.value)
  {}

  lemma StepHoldsOnce(e: Disk, d: Disk, id: Id, slots: set<Slot>, bytes: Bytes)
    requires IsStep(e, d, id, slots) && forall s | s in slots :: HoldsOnce(s, bytes)
    ensures OneCopy(d, id, bytes, e)
  {
    var s :| s in slots && e == Patch(d, id, s);
    ViewPatch(d, id, s, id);
  }

  /** Under every error return, and after any number of steps forward and back, Delete and
      Restore keep exactly one copy under one record. */
  lemma DeleteStepsKeepOneCopy(was: seq<Disk>, now: seq<Disk>, d: Disk, id: Id, f: File)
    requires Steps(was, now, d, id, DeleteSteps(View(d, id), f))
    requires id in d.objects && id in d.manifests && id !in d.trash
    ensures forall i | |was| <= i < |now| :: OneCopy(d, id, d.objects[id], now[i])
  {
    forall s | s in DeleteSteps(View(d, id), f) ensures HoldsOnce(s, d.objects[id]) {
      DeleteSlotHoldsOnce(View(d, id), f, s);
    }
    forall i | |was| <= i < |now| ensures OneCopy(d, id, d.objects[id], now[i]) {
      StepHoldsOnce(now[i], d, id, DeleteSteps(View(d, id), f), d.objects[id]);
    }
  }

  lemma RestoreStepsKeepOneCopy(was: seq<Disk>, now: seq<Disk>, d: Disk, id: Id, f: File)
    requires id in d.trash && d.trash[id].content.Some? && d.trash[id].manifest.Some?
    requires id !in d.objects && id !in d.manifests
    requires Steps(was, now, d, id, RestoreSteps(View(d, id), f))
    ensures forall i | |was| <= i < |now| :: OneCopy(d, id, d.trash[id].content.value, now[i])
  {
    forall s | s in RestoreSteps(View(d, id), f) ensures HoldsOnce(s, d.trash[id].content.value) {
      RestoreSlotHoldsOnce(View(d, id), f, s);
    }
    forall i | |was| <= i < |now| ensures OneCopy(d, id, d.trash[id].content.value, now[i]) {
      StepHoldsOnce(now[i], d, id, RestoreSteps(View(d, id), f), d.trash[id].content.value);
    }
  }

  /** Where a method that changes one identifier started, and what it may turn its entries into. */
  datatype Path = Path(from: seq<Disk>, base: Disk, id: Id, slots: set<Slot>)

  ghost predicate OnPath(p: Path, trail: seq<Disk>) {
    Steps(p.from, trail, p.base, p.id, p.slots)
  }

  lemma OneStepOn(p: Path, trail: seq<Disk>, s: Slot)
    requires OnPath(p, trail) && s in p.slots
    ensures OnPath(p, trail + [Patch(p.base, p.id, s)])
  {
    var now := trail + [Patch(p.base, p.id, s)];
    forall i | |p.from| <= i < |now| ensures IsStep(now[i], p.base, p.id, p.slots) {
      if i < |trail| {
        assert now[i] == trail[i] && IsStep(trail[i], p.base, p.id, p.slots);
      }
    }
  }

  // The same for session directories, and for CompleteUpload, which changes a session and a file.

  datatype SessionPath = SessionPath(from: seq<Disk>, base: Disk, id: Id, dirs: set<Option<SessionDir>>)

  ghost predicate OnSessionPath(p: SessionPath, trail: seq<Disk>) {
    SessionSteps(p.from, trail, p.base, p.id, p.dirs)
  }

  lemma OneSessionStepOn(p: SessionPath, trail: seq<Disk>, dir: Option<SessionDir>)
    requires OnSessionPath(p, trail) && dir in p.dirs
    ensures OnSessionPath(p, trail + [PatchSession(p.base, p.id, dir)])
  {
    var now := trail + [PatchSession(p.base, p.id, dir)];
    forall i | |p.from| <= i < |now| ensures IsSessionStep(now[i], p.base, p.id, p.dirs) {
      if i < |trail| {
        assert now[i] == trail[i] && IsSessionStep(trail[i], p.base, p.id, p.dirs);
      }
    }
  }

  ghost predicate SessionSteps(was: seq<Disk>, now: seq<Disk>, d: Disk, id: Id, dirs: set<Option<SessionDir>>) {
    was <= now && forall i | |was| <= i < |now| :: IsSessionStep(now[i], d, id, dirs)
  }

  ghost predicate IsSessionStep(e: Disk, d: Disk, id: Id, dirs: set<Option<SessionDir>>) {
    exists dir :: dir in dirs && e == PatchSession(d, id, dir)
  }

  function StagedUploadSteps(dir: SessionDir, u: Session): set<Option<SessionDir>> {
    {Some(dir), Some(dir.(manifestTmp := Some(Torn))), Some(dir.(manifestTmp := Some(Whole(u))))}
  }

  function UploadManifestSteps(dir: SessionDir, u: Session): set<Option<SessionDir>> {
    StagedUploadSteps(dir, u) + {Some(dir.(manifest := Some(u)))}
  }

  function StartSteps(u: Session): set<Option<SessionDir>> {
    {None, Some(SessionDir(None, None, None))} + StagedUploadSteps(SessionDir(None, None, Some([])), u)
  }

  function AppendSteps(dir: SessionDir, written: Bytes, u: Session): set<Option<SessionDir>>
    requires dir.data.Some?
  {
    {Some(dir)} + UploadManifestSteps(dir.(data := Some(dir.data.value + written)), u)
  }

  /** The slots of the file that CompleteUpload passes through, forward and back. */
  function FilePartSteps(stored: Slot, f: File): set<Slot> {
    {VACANT, VACANT.(manifest := Some(f))} + ManifestSteps(stored, f)
  }

  ghost predicate IsCompleteStep(e: Disk, d: Disk, id: Id, fileId: Id, f: File, u: Session)
    requires id in d.uploads && d.uploads[id].data.Some?
  {
    var emptied, stored := d.uploads[id].(data := None), VACANT.(content := d.uploads[id].data);
    || IsStep(e, PatchSession(d, id, Some(emptied)), fileId, FilePartSteps(stored, f))
    || IsSessionStep(e, Patch(d, fileId, stored.(manifest := Some(f))), id, UploadManifestSteps(emptied, u))
  }

  ghost predicate CompleteSteps(was: seq<Disk>, now: seq<Disk>, d: Disk, id: Id, fileId: Id, f: File, u: Session)
    requires id in d.uploads && d.uploads[id].data.Some?
  {
    was <= now && forall i | |was| <= i < |now| :: IsCompleteStep(now[i], d, id, fileId, f, u)
  }

  /** The first step takes the part; steps on the file may follow it, or follow others. */
  lemma FileSteps(was: seq<Disk>, now: seq<Disk>, p: Path, d: Disk, id: Id, fileId: Id, f: File, u: Session)
    requires id in d.uploads && d.uploads[id].data.Some?
    requires
      var emptied, stored := d.uploads[id].(data := None), VACANT.(content := d.uploads[id].data);
      && p == Path(was + [Patch(PatchSession(d, id, Some(emptied)), fileId, stored)],
                   PatchSession(d, id, Some(emptied)), fileId, FilePartSteps(stored, f))
      && OnPath(p, now)
    ensures CompleteSteps(was, now, d, id, fileId, f, u)
  {
    var emptied, stored := d.uploads[id].(data := None), VACANT.(content := d.uploads[id].data);
    forall i | |was| <= i < |now| ensures IsCompleteStep(now[i], d, id, fileId, f, u) {
      if i == |was| {
        assert now[i] == p.from[i] == Patch(p.base, fileId, stored) && stored in p.slots;
      } else {
        assert IsStep(now[i], p.base, fileId, p.slots);
      }
    }
  }

  lemma MoreFileSteps(
    was: seq<Disk>, middle: seq<Disk>, now: seq<Disk>, p: Path, d: Disk, id: Id, fileId: Id, f: File, u: Session)
    requires id in d.uploads && d.uploads[id].data.Some? && CompleteSteps(was, middle, d, id, fileId, f, u)
    requires
      var emptied, stored := d.uploads[id].(data := None), VACANT.(content := d.uploads[id].data);
      && p == Path(middle, PatchSession(d, id, Some(emptied)), fileId, FilePartSteps(stored, f))
      && OnPath(p, now)
    ensures CompleteSteps(was, now, d, id, fileId, f, u)
  {
    forall i | |was| <= i < |now| ensures IsCompleteStep(now[i], d, id, fileId, f, u) {
      if i < |middle| {
        assert now[i] == middle[i] && IsCompleteStep(middle[i], d, id, fileId, f, u);
      } else {
        assert IsStep(now[i], p.base, fileId, p.slots);
      }
    }
  }

  lemma SessionPartSteps(
    was: seq<Disk>, middle: seq<Disk>, now: seq<Disk>, q: SessionPath, d: Disk, id: Id, fileId: Id, f: File, u: Session)
    requires id in d.uploads && d.uploads[id].data.Some? && CompleteSteps(was, middle, d, id, fileId, f, u)
    requires
      var emptied, stored := d.uploads[id].(data := None), VACANT.(content := d.uploads[id].data);
      && q == SessionPath(middle, Patch(d, fileId, stored.(manifest := Some(f))), id, UploadManifestSteps(emptied, u))
      && OnSessionPath(q, now)
    ensures CompleteSteps(was, now, d, id, fileId, f, u)
  {
    forall i | |was| <= i < |now| ensures IsCompleteStep(now[i], d, id, fileId, f, u) {
      if i < |middle| {
        assert now[i] == middle[i] && IsCompleteStep(middle[i], d, id, fileId, f, u);
      } else {
        assert IsSessionStep(now[i], q.base, id, q.dirs);
      }
    }
  }
}
