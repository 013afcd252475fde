/** Recover and the sweep: what they remove, what they keep, and after which crashes the
    store becomes ready again. */
module Recovery {
  import opened Basics
  import opened Maps
  import opened DiskModel
  import opened StoreSpec

  // ---------------------------------------------------------------- quarantine

  /** What Recover finds under a name: only temporary files and sessions without manifest. */
  function Found(d: Disk, l: Leftover): Option<Artifact> {
    match l
    case PartialObject(id) => if id in d.parts then Some(PartFile(d.parts[id])) else None
    case MetadataTmp(id) => if id in d.manifestTmps then Some(FileTmp(d.manifestTmps[id])) else None
    case UploadTmp(id) =>
      if id in d.uploads && d.uploads[id].manifestTmp.Some? then Some(SessionTmp(d.uploads[id].manifestTmp.value))
         else None
    case UploadDir(id) =>
      if id in d.uploads && d.uploads[id].manifest.None? then Some(SessionTree(d.uploads[id].data)) else None
  }

  function LeftoverNames(d: Disk): set<Leftover> {
    (set id | id in d.parts :: PartialObject(id))
    + (set id | id in d.manifestTmps :: MetadataTmp(id))
    + (set id | id in d.uploads && d.uploads[id].manifestTmp.Some? :: UploadTmp(id))
    + (set id | id in d.uploads && d.uploads[id].manifest.None? :: UploadDir(id))
  }

  /** Everything Recover moves out of the way. */
  ghost function Leftovers(d: Disk): map<Leftover, Artifact> {
    map l | l in LeftoverNames(d) && Found(d, l).Some? :: Found(d, l).value
  }

  lemma LeftoverAt(d: Disk, l: Leftover)
    ensures GetAt(Leftovers(d), l) == Found(d, l)
  {}

  type Quarantine = map<QuarantineName, Artifact>

  /** Nothing but the entry n has changed or gone. */
  ghost predicate OthersKept(before: Quarantine, after: Quarantine, n: QuarantineName) {
    forall m | m in before && m != n :: m in after && after[m] == before[m]
  }

  /** quarantinePath's target: the base name, or the stamped name when that is taken. */
  function Target(q: Quarantine, l: Leftover, now: int): QuarantineName {
    if Plain(l) in q then Stamped(now, l) else Plain(l)
  }

  /** What the move leaves under a target that exists already: a file replaces a file, a
      tree is merged into a tree unless both hold data, anything else fails. */
  function Merge(was: Artifact, a: Artifact): (r: Option<Artifact>)
    ensures r.Some? && !a.SessionTree? ==> r.value == a && !was.SessionTree?
    ensures r.Some? && a.SessionTree? ==>
      && was.SessionTree? && r.value.SessionTree?
      && (a.data.Some? ==> r.value.data == a.data) && (was.data.Some? ==> r.value.data == was.data)
      && (r.value.data.Some? ==> a.data.Some? || was.data.Some?)
    ensures r.None? <==> was.SessionTree? != a.SessionTree? || (a.SessionTree? && a.data.Some? && was.data.Some?)
  {
    if was.SessionTree? != a.SessionTree? then None
    else if !a.SessionTree? then Some(a)
    else if was.data.Some? && a.data.Some? then None
    else Some(if a.data.Some? then a else was)
  }

  function Placed(q: Quarantine, l: Leftover, a: Artifact, now: int): Option<Artifact> {
    var n := Target(q, l, now);
    if n in q then Merge(q[n], a) else Some(a)
  }

  /** One call of quarantinePath, when it succeeds. */
  function QuarantineOne(q: Quarantine, l: Leftover, a: Artifact, now: int): Quarantine
    requires Placed(q, l, a, now).Some?
  {
    q[Target(q, l, now) := Placed(q, l, a, now).value]
  }

  ghost predicate CanPlace(q: Quarantine, a: map<Leftover, Artifact>, now: int) {
    forall l | l in a :: Placed(q, l, a[l], now).Some?
  }

  ghost predicate IsTarget(q: Quarantine, a: map<Leftover, Artifact>, n: QuarantineName, now: int) {
    n.leftover in a && n == Target(q, n.leftover, now)
  }

  /** The quarantine after every artifact has been moved. */
  ghost function PlaceAll(q: Quarantine, a: map<Leftover, Artifact>, now: int): Quarantine
    requires CanPlace(q, a, now)
  {
    map n | n in q.Keys + (set l | l in a :: Target(q, l, now)) ::
      if IsTarget(q, a, n, now) then Placed(q, n.leftover, a[n.leftover], now).value else q[n]
  }

  lemma PlacedAt(q: Quarantine, a: map<Leftover, Artifact>, n: QuarantineName, now: int)
    requires CanPlace(q, a, now)
    ensures GetAt(PlaceAll(q, a, now), n)
            == if IsTarget(q, a, n, now) then Placed(q, n.leftover, a[n.leftover], now) else GetAt(q, n)
  {
    if IsTarget(q, a, n, now) {
      assert Placed(q, n.leftover, a[n.leftover], now).Some?;
    }
  }

  /** Moving one artifact decides nothing about the others, so the order does not matter. */
  lemma PlaceOneMore(q: Quarantine, a: map<Leftover, Artifact>, l: Leftover, x: Artifact, now: int)
    requires CanPlace(q, a, now) && l !in a
    ensures Placed(PlaceAll(q, a, now), l, x, now) == Placed(q, l, x, now)
    ensures CanPlace(q, a[l := x], now) <==> Placed(q, l, x, now).Some?
    ensures CanPlace(q, a[l := x], now) ==> QuarantineOne(PlaceAll(q, a, now), l, x, now) == PlaceAll(q, a[l := x], now)
  {
    TargetStays(q, a, l, x, now);
    var more := a[l := x];
    assert forall m | m in a :: m in more && more[m] == a[m];
    assert more[l] == x;
    if CanPlace(q, more, now) {
      PlacedInTurn(q, a, l, x, more, now);
    }
  }

  lemma PlacedInTurn(
    q: Quarantine, a: map<Leftover, Artifact>, l: Leftover, x: Artifact, more: map<Leftover, Artifact>, now: int)
    requires CanPlace(q, a, now) && l !in a && more == a[l := x] && CanPlace(q, more, now)
    requires Target(PlaceAll(q, a, now), l, now) == Target(q, l, now)
    requires Placed(PlaceAll(q, a, now), l, x, now) == Placed(q, l, x, now) && Placed(q, l, x, now).Some?
    ensures QuarantineOne(PlaceAll(q, a, now), l, x, now) == PlaceAll(q, more, now)
  {
    var one, all := QuarantineOne(PlaceAll(q, a, now), l, x, now), PlaceAll(q, more, now);
    forall n ensures GetAt(one, n) == GetAt(all, n) {
      PlacedAt(q, a, n, now);
      PlacedAt(q, more, n, now);
    }
    SameGets(one, all);
  }

  lemma TargetStays(q: Quarantine, a: map<Leftover, Artifact>, l: Leftover, x: Artifact, now: int)
    requires CanPlace(q, a, now) && l !in a
    ensures Target(PlaceAll(q, a, now), l, now) == Target(q, l, now)
    ensures Placed(PlaceAll(q, a, now), l, x, now) == Placed(q, l, x, now)
  {
    PlacedAt(q, a, Plain(l), now);
    PlacedAt(q, a, Stamped(now, l), now);
  }

  ghost predicate CanQuarantine(d: Disk, now: int) {
    CanPlace(d.quarantine, Leftovers(d), now)
  }

  ghost function Quarantined(d: Disk, now: int): Quarantine
    requires CanQuarantine(d, now)
  {
    PlaceAll(d.quarantine, Leftovers(d), now)
  }

  // No artifact meets both its base name and its stamped name taken.
  ghost predicate NoClash(q: Quarantine, a: map<Leftover, Artifact>, now: int) {
    forall l | l in a :: Plain(l) in q ==> Stamped(now, l) !in q
  }

  /** Without a name clash every artifact lands in quarantine as it was, under its base name or
      behind the clock reading where that is taken, next to everything that was there before. */
  lemma EvidenceKept(q: Quarantine, a: map<Leftover, Artifact>, now: int)
    requires NoClash(q, a, now)
    ensures CanPlace(q, a, now)
    ensures forall n | n in q :: n in PlaceAll(q, a, now) && PlaceAll(q, a, now)[n] == q[n]
    ensures forall l | l in a ::
      GetAt(PlaceAll(q, a, now), if Plain(l) in q then Stamped(now, l) else Plain(l)) == Some(a[l])
  {
    forall l | l in a ensures IsTarget(q, a, Target(q, l, now), now) {}
  }

  /** The move does not always respect what is there: earlier evidence survives exactly when
      each artifact that meets both its names taken happens to reproduce the old entry. */
  lemma OldEvidenceKeptIff(q: Quarantine, a: map<Leftover, Artifact>, now: int)
    requires CanPlace(q, a, now)
    ensures (forall n | n in q :: n in PlaceAll(q, a, now) && PlaceAll(q, a, now)[n] == q[n])
            <==> (forall l | l in a && Target(q, l, now) in q :: Placed(q, l, a[l], now) == Some(q[Target(q, l, now)]))
  {
    var p := PlaceAll(q, a, now);
    if forall n | n in q :: n in p && p[n] == q[n] {
      forall l | l in a && Target(q, l, now) in q
        ensures Placed(q, l, a[l], now) == Some(q[Target(q, l, now)])
      {
        var n := Target(q, l, now);
        assert IsTarget(q, a, n, now) && n in p;
      }
    }
  }

  /** A third interrupted Put under one identifier, recovered at the clock reading of the
      second, overwrites the evidence of the second. */
  lemma EvidenceCanBeOverwritten(id: Id, now: int)
    ensures
      var l := PartialObject(id);
      var q := map[Plain(l) := PartFile([1]), Stamped(now, l) := PartFile([2])];
      var a := map[l := PartFile([3])];
      CanPlace(q, a, now) && PlaceAll(q, a, now) == map[Plain(l) := PartFile([1]), Stamped(now, l) := PartFile([3])]
  {
    var l := PartialObject(id);
    var q := map[Plain(l) := PartFile([1]), Stamped(now, l) := PartFile([2])];
    var a := map[l := PartFile([3])];
    assert IsTarget(q, a, Stamped(now, l), now);
  }

  // ---------------------------------------------------------------- the sweep

  /** The directory after the sweep. */
  function Swept(cfg: Config, d: Disk, now: int): Disk {
    d.(uploads := map id | id in d.uploads && !Expired(cfg, d.uploads[id], id, now) :: d.uploads[id])
  }

  lemma {:induction false} SweepIsExpiry(cfg: Config, s: Store, listing: seq<Id>, now: int)
    ensures SweepAll(cfg, s, listing, now).disk
            == s.disk.(uploads := map id | id in s.disk.uploads
                 && !(id in listing && Expired(cfg, s.disk.uploads[id], id, now)) :: s.disk.uploads[id])
  {
    var want := map id | id in s.disk.uploads
      && !(id in listing && Expired(cfg, s.disk.uploads[id], id, now)) :: s.disk.uploads[id];
    if listing == [] {
      assert want == s.disk.uploads;
    } else {
      var n := |listing| - 1;
      SweepIsExpiry(cfg, s, listing[..n], now);
      var t := SweepAll(cfg, s, listing[..n], now);
      SweptOneMore(cfg, s.disk.uploads, t.disk.uploads, listing, now, want);
      assert SweepOne(cfg, t, listing[n], now).disk == t.disk.(uploads := want);
    }
  }

  lemma SweptOneMore(
    cfg: Config, uploads: map<Id, SessionDir>, swept: map<Id, SessionDir>, listing: seq<Id>, now: int,
    want: map<Id, SessionDir>)
    requires listing != []
    requires swept == map id | id in uploads
               && !(id in listing[..|listing| - 1] && Expired(cfg, uploads[id], id, now)) :: uploads[id]
    requires want == map id | id in uploads && !(id in listing && Expired(cfg, uploads[id], id, now)) :: uploads[id]
    ensures
      var last := listing[|listing| - 1];
      want == if last in swept && Expired(cfg, swept[last], last, now) then SetAt(swept, last, None) else swept
  {
    var last := listing[|listing| - 1];
    var got := if last in swept && Expired(cfg, swept[last], last, now) then SetAt(swept, last, None) else swept;
    forall id ensures GetAt(want, id) == GetAt(got, id) {
      assert id in listing <==> id in listing[..|listing| - 1] || id == last;
    }
    SameGets(want, got);
  }

  lemma FullSweep(cfg: Config, s: Store, listing: seq<Id>, now: int)
    requires Lists(listing, s.disk.uploads.Keys)
    ensures SweepAll(cfg, s, listing, now).disk == Swept(cfg, s.disk, now)
  {
    SweepIsExpiry(cfg, s, listing, now);
    assert SweepAll(cfg, s, listing, now).disk.uploads == Swept(cfg, s.disk, now).uploads;
  }

  /** The sweep removes exactly the completed sessions and the open ones that have been idle for
      the time to live, in whatever order it meets them; what it cannot read stays, and so does
      everything when no time to live is set. */
  lemma SweepRemovesExactly(cfg: Config, s: Store, listing: seq<Id>, now: int, id: Id)
    requires id in s.disk.uploads && id in listing
    ensures
      var r, after := ReadSession(s.disk, id), SweepAll(cfg, s, listing, now).disk.uploads;
      && (id in after <==>
            cfg.ttl <= 0 || r.Err? || (r.value.status == Uploading && now - r.value.updatedAt < cfg.ttl))
      && (id in after ==> after[id] == s.disk.uploads[id])
  {
    SweepIsExpiry(cfg, s, listing, now);
  }

  // ---------------------------------------------------------------- Recover

  datatype Report = Report(
    partialObjects: nat, metadataManifests: nat, uploadManifests: nat, uploadSessions: nat, expiredUploads: nat)
  {
    predicate Recovered() {
      partialObjects + metadataManifests + uploadManifests + uploadSessions + expiredUploads > 0
    }
  }

  function StagedSessions(uploads: map<Id, SessionDir>): set<Id> {
    set id | id in uploads && uploads[id].manifestTmp.Some?
  }

  function BareSessions(uploads: map<Id, SessionDir>): set<Id> {
    set id | id in uploads && uploads[id].manifest.None?
  }

  /** The directory without its leftovers. */
  function KeptSessions(uploads: map<Id, SessionDir>): map<Id, SessionDir> {
    map id | id in uploads && uploads[id].manifest.Some? :: uploads[id].(manifestTmp := None)
  }

  ghost function Cleaned(d: Disk, now: int): Disk
    requires CanQuarantine(d, now)
  {
    d.(parts := map[], manifestTmps := map[], uploads := KeptSessions(d.uploads), quarantine := Quarantined(d, now))
  }

  ghost function Recovered(cfg: Config, d: Disk, now: int): Disk
    requires CanQuarantine(d, now)
  {
    Swept(cfg, Cleaned(d, now), now)
  }

  ghost function ReportOf(cfg: Config, d: Disk, now: int): Report
    requires CanQuarantine(d, now)
  {
    Report(|d.parts|, |d.manifestTmps|,
           |StagedSessions(d.uploads)|, |BareSessions(d.uploads)|,
           |KeptSessions(d.uploads).Keys - Recovered(cfg, d, now).uploads.Keys|)
  }

  /** Recover on a store whose artifacts can all be placed; listing is the order of its
      sweep. When something was repaired the index is rebuilt. */
  ghost function Recover(cfg: Config, s: Store, listing: seq<Id>, now: int): (Store, Outcome<Report>)
    requires CanQuarantine(s.disk, now)
  {
    var t := SweepAll(cfg, s.(disk := Cleaned(s.disk, now)), listing, now);
    var report := ReportOf(cfg, s.disk, now);
    if !report.Recovered() then (t, Ok(report))
    else
      var (r, failed) := Rebuild(t);
      (r, if failed then Err(UsageUnavailable) else Ok(report))
  }

  /** A file slot and a session directory as Recover leaves them. */
  function WithoutTmp(s: Slot): Slot {
    s.(part := None, manifestTmp := None)
  }

  lemma RecoveredView(cfg: Config, d: Disk, now: int, id: Id)
    requires CanQuarantine(d, now)
    ensures View(Recovered(cfg, d, now), id) == WithoutTmp(View(d, id))
  {}

  /** What Recover makes of one session directory. */
  predicate DirHeals(cfg: Config, dir: SessionDir, id: Id, now: int) {
    || dir.manifest.None?
    || SessionReady(dir.(manifestTmp := None), id)
    || Expired(cfg, dir.(manifestTmp := None), id, now)
  }

  /** Recover leads to readiness exactly when nothing is wrong but temporary files of writes,
      sessions without manifest and sessions the sweep may drop. */
  lemma RecoverReadyIff(cfg: Config, d: Disk, now: int)
    requires CanQuarantine(d, now)
    ensures Ready(Recovered(cfg, d, now))
            <==> && !d.probe
                 && (forall id :: SlotReady(WithoutTmp(View(d, id)), id))
                 && (forall id | id in d.uploads :: DirHeals(cfg, d.uploads[id], id, now))
  {
    var r := Recovered(cfg, d, now);
    forall id ensures View(r, id) == WithoutTmp(View(d, id)) {
      RecoveredView(cfg, d, now, id);
    }
    if Ready(r) {
      forall id ensures SlotReady(WithoutTmp(View(d, id)), id) {
        assert SlotReady(View(r, id), id);
      }
      forall id | id in d.uploads ensures DirHeals(cfg, d.uploads[id], id, now) {
        if d.uploads[id].manifest.Some? && !Expired(cfg, d.uploads[id].(manifestTmp := None), id, now) {
          assert id in r.uploads;
        }
      }
    }
    if (forall id :: SlotReady(WithoutTmp(View(d, id)), id))
       && forall id | id in d.uploads :: DirHeals(cfg, d.uploads[id], id, now)
    {
      forall id | id in r.uploads ensures SessionReady(r.uploads[id], id) {
        assert DirHeals(cfg, d.uploads[id], id, now);
      }
      forall id ensures SlotReady(View(r, id), id) {
        assert SlotReady(WithoutTmp(View(d, id)), id);
      }
    }
  }

  function PartialObjects(a: set<Leftover>): set<Leftover> {
    set l | l in a && l.PartialObject?
  }

  function MetadataTmps(a: set<Leftover>): set<Leftover> {
    set l | l in a && l.MetadataTmp?
  }

  function UploadTmps(a: set<Leftover>): set<Leftover> {
    set l | l in a && l.UploadTmp?
  }

  function UploadDirs(a: set<Leftover>): set<Leftover> {
    set l | l in a && l.UploadDir?
  }

  lemma {:induction false} SameSize<A, B>(a: set<A>, b: set<B>, f: A -> B)
    requires forall x, y | x in a && y in a && f(x) == f(y) :: x == y
    requires b == set x | x in a :: f(x)
    ensures |a| == |b|
    decreases |a|
  {
    if a != {} {
      var x :| x in a;
      assert forall y | y in a - {x} :: f(y) in b - {f(x)};
      assert b - {f(x)} == set y | y in a - {x} :: f(y);
      SameSize(a - {x}, b - {f(x)}, f);
    }
  }

  lemma PartialObjectsMoved(d: Disk)
    ensures |PartialObjects(Leftovers(d).Keys)| == |d.parts.Keys|
  {
    forall l ensures l in PartialObjects(Leftovers(d).Keys) <==> l.PartialObject? && l.id in d.parts.Keys {
      LeftoverAt(d, l);
    }
    SameSize(d.parts.Keys, PartialObjects(Leftovers(d).Keys), (id: Id) => PartialObject(id));
  }

  lemma MetadataTmpsMoved(d: Disk)
    ensures |MetadataTmps(Leftovers(d).Keys)| == |d.manifestTmps.Keys|
  {
    forall l ensures l in MetadataTmps(Leftovers(d).Keys) <==> l.MetadataTmp? && l.id in d.manifestTmps.Keys {
      LeftoverAt(d, l);
    }
    SameSize(d.manifestTmps.Keys, MetadataTmps(Leftovers(d).Keys), (id: Id) => MetadataTmp(id));
  }

  lemma UploadTmpsMoved(d: Disk)
    ensures |UploadTmps(Leftovers(d).Keys)| == |StagedSessions(d.uploads)|
  {
    forall l ensures l in UploadTmps(Leftovers(d).Keys) <==> l.UploadTmp? && l.id in StagedSessions(d.uploads) {
      LeftoverAt(d, l);
    }
    SameSize(StagedSessions(d.uploads), UploadTmps(Leftovers(d).Keys), (id: Id) => UploadTmp(id));
  }

  lemma UploadDirsMoved(d: Disk)
    ensures |UploadDirs(Leftovers(d).Keys)| == |BareSessions(d.uploads)|
  {
    forall l ensures l in UploadDirs(Leftovers(d).Keys) <==> l.UploadDir? && l.id in BareSessions(d.uploads) {
      LeftoverAt(d, l);
    }
    SameSize(BareSessions(d.uploads), UploadDirs(Leftovers(d).Keys), (id: Id) => UploadDir(id));
  }

  lemma SessionsGone(cfg: Config, d: Disk, now: int)
    requires CanQuarantine(d, now)
    ensures
      var left := Recovered(cfg, d, now).uploads;
      |KeptSessions(d.uploads).Keys - left.Keys| + |BareSessions(d.uploads)| == |d.uploads.Keys| - |left.Keys|
  {
    var kept, left := KeptSessions(d.uploads), Recovered(cfg, d, now).uploads;
    assert kept.Keys == d.uploads.Keys - BareSessions(d.uploads);
    assert BareSessions(d.uploads) <= d.uploads.Keys;
    assert left.Keys <= kept.Keys;
  }

  /** The report counts what was moved into quarantine, kind by kind, and the sessions that have
      gone besides. */
  lemma ReportCounts(cfg: Config, d: Disk, now: int)
    requires CanQuarantine(d, now)
    ensures
      var report, moved := ReportOf(cfg, d, now), Leftovers(d).Keys;
      && report.partialObjects == |PartialObjects(moved)|
      && report.metadataManifests == |MetadataTmps(moved)|
      && report.uploadManifests == |UploadTmps(moved)|
      && report.uploadSessions == |UploadDirs(moved)|
      && report.expiredUploads + report.uploadSessions
         == |d.uploads.Keys| - |Recovered(cfg, d, now).uploads.Keys|
  {
    PartialObjectsMoved(d);
    MetadataTmpsMoved(d);
    UploadTmpsMoved(d);
    UploadDirsMoved(d);
    SessionsGone(cfg, d, now);
  }

  /** Recover changes no active or trashed file, and keeps every session that still counts. */
  lemma RecoverIsConservative(cfg: Config, d: Disk, now: int, id: Id)
    requires CanQuarantine(d, now)
    ensures
      var r := Recovered(cfg, d, now);
      && r.objects == d.objects && r.manifests == d.manifests && r.trash == d.trash
      && (id in r.uploads <==> id in d.uploads && d.uploads[id].manifest.Some?
                               && !Expired(cfg, d.uploads[id].(manifestTmp := None), id, now))
      && (id in r.uploads ==> r.uploads[id] == d.uploads[id].(manifestTmp := None))
  {
    RecoveredView(cfg, d, now, id);
  }

  /** No temporary file and no session without manifest. */
  ghost predicate Tidy(d: Disk) {
    && d.parts == map[] && d.manifestTmps == map[]
    && forall id | id in d.uploads :: d.uploads[id].manifest.Some? && d.uploads[id].manifestTmp.None?
  }

  lemma TidyHasNoLeftovers(d: Disk, now: int)
    requires Tidy(d)
    ensures Leftovers(d) == map[] && CanQuarantine(d, now)
    ensures KeptSessions(d.uploads) == d.uploads
    ensures Cleaned(d, now) == d
  {
    forall l ensures l !in Leftovers(d) {
      LeftoverAt(d, l);
    }
    assert Quarantined(d, now) == d.quarantine;
  }

  lemma ReadyIsTidy(d: Disk)
    requires Ready(d)
    ensures Tidy(d)
  {
    forall id ensures id !in d.parts && id !in d.manifestTmps {
      assert SlotReady(View(d, id), id);
    }
    forall id | id in d.uploads ensures d.uploads[id].manifest.Some? && d.uploads[id].manifestTmp.None? {
      assert SessionReady(d.uploads[id], id);
    }
  }

  /** A second Recover at the same clock reading finds nothing, reports nothing and changes
      nothing. */
  lemma RecoverIsIdempotent(cfg: Config, d: Disk, now: int)
    requires CanQuarantine(d, now)
    ensures
      var r := Recovered(cfg, d, now);
      && Leftovers(r) == map[] && CanQuarantine(r, now)
      && Recovered(cfg, r, now) == r
      && !ReportOf(cfg, r, now).Recovered()
  {
    var r := Recovered(cfg, d, now);
    forall id | id in r.uploads
      ensures r.uploads[id].manifest.Some? && r.uploads[id].manifestTmp.None? && !Expired(cfg, r.uploads[id], id, now)
    {
      RecoverIsConservative(cfg, d, now, id);
    }
    TidyHasNoLeftovers(r, now);
    assert Swept(cfg, r, now).uploads == r.uploads;
    assert StagedSessions(r.uploads) == {} && BareSessions(r.uploads) == {};
  }

  /** e is d with any number of temporary files of writes and sessions without manifest added. */
  ghost predicate Littered(d: Disk, e: Disk) {
    && e.objects == d.objects && e.manifests == d.manifests && e.trash == d.trash && !e.probe
    && (forall id | id in d.uploads :: id in e.uploads && e.uploads[id].(manifestTmp := None) == d.uploads[id])
    && (forall id | id in e.uploads && id !in d.uploads :: e.uploads[id].manifest.None?)
  }

  /** Recover removes all the litter and nothing else: from a ready store with litter it leads
      to that store as the sweep leaves it, which is ready. */
  lemma LitterIsRemoved(cfg: Config, d: Disk, e: Disk, now: int)
    requires Ready(d) && Littered(d, e) && CanQuarantine(e, now)
    ensures Recovered(cfg, e, now).(quarantine := d.quarantine) == Swept(cfg, d, now)
    ensures Ready(Recovered(cfg, e, now))
  {
    ReadyIsTidy(d);
    KeptIsClean(d.uploads, e.uploads);
    forall id ensures SlotReady(WithoutTmp(View(e, id)), id) {
      assert SlotReady(View(d, id), id);
      assert WithoutTmp(View(e, id)) == View(d, id);
    }
    forall id | id in e.uploads ensures DirHeals(cfg, e.uploads[id], id, now) {
      if id in d.uploads {
        assert SessionReady(d.uploads[id], id);
      }
    }
    RecoverReadyIff(cfg, e, now);
  }

  lemma KeptIsClean(clean: map<Id, SessionDir>, littered: map<Id, SessionDir>)
    requires forall id | id in clean ::
      clean[id].manifest.Some? && id in littered && littered[id].(manifestTmp := None) == clean[id]
    requires forall id | id in littered && id !in clean :: littered[id].manifest.None?
    ensures KeptSessions(littered) == clean
  {
    forall id ensures id in KeptSessions(littered) <==> id in clean
              ensures id in KeptSessions(littered) && id in clean ==> KeptSessions(littered)[id] == clean[id]
    {
      if id in clean {
        assert littered[id].manifest == clean[id].manifest;
      }
    }
    Extensional(KeptSessions(littered), clean);
  }

  // ---------------------------------------------------------------- Recover, move by move

  /** The directory without one artifact. */
  function Without(d: Disk, l: Leftover): Disk
    requires Found(d, l).Some?
  {
    match l
    case PartialObject(id) => d.(parts := d.parts - {id})
    case MetadataTmp(id) => d.(manifestTmps := d.manifestTmps - {id})
    case UploadTmp(id) => PatchSession(d, id, Some(d.uploads[id].(manifestTmp := None)))
    case UploadDir(id) => PatchSession(d, id, None)
  }

  lemma LiveSessionStays(d: Disk, e: Disk, l: Leftover, id: Id)
    requires Tidy(d) && Littered(d, e) && Found(e, l).Some? && id in d.uploads
    ensures
      var f := Without(e, l);
      id in f.uploads && f.uploads[id].(manifestTmp := None) == d.uploads[id]
  {
    assert e.uploads[id].(manifestTmp := None) == d.uploads[id];
    assert e.uploads[id].manifest.Some?;
  }

  lemma LitterStays(d: Disk, e: Disk, l: Leftover, id: Id)
    requires Littered(d, e) && Found(e, l).Some? && id !in d.uploads
    ensures id in Without(e, l).uploads ==> Without(e, l).uploads[id].manifest.None?
  {
    assert id in e.uploads ==> e.uploads[id].manifest.None?;
  }

  lemma OthersStay(e: Disk, l: Leftover)
    requires Found(e, l).Some?
    ensures
      var f := Without(e, l);
      f.objects == e.objects && f.manifests == e.manifests && f.trash == e.trash && f.probe == e.probe
  {}

  /** A Recover that is cut off between two moves, or while a directory is being copied into
      quarantine, leaves a store that is still littered and nothing worse, so the next one
      finishes the work. */
  lemma CutOffRecoverIsLitter(d: Disk, e: Disk, l: Leftover, q: Quarantine)
    requires Ready(d) && Littered(d, e) && Found(e, l).Some?
    ensures Littered(d, e.(quarantine := q))
    ensures Littered(d, Without(e, l).(quarantine := q))
  {
    ReadyIsTidy(d);
    var f := Without(e, l);
    OthersStay(e, l);
    forall id | id in d.uploads ensures id in f.uploads && f.uploads[id].(manifestTmp := None) == d.uploads[id] {
      LiveSessionStays(d, e, l, id);
    }
    forall id | id in f.uploads && id !in d.uploads ensures f.uploads[id].manifest.None? {
      LitterStays(d, e, l, id);
    }
  }

  /** e is d without some of its leftovers. */
  ghost predicate PartlyCleaned(d: Disk, e: Disk) {
    && e.objects == d.objects && e.manifests == d.manifests && e.trash == d.trash && e.probe == d.probe
    && (forall id | id in e.parts :: id in d.parts && e.parts[id] == d.parts[id])
    && (forall id | id in e.manifestTmps :: id in d.manifestTmps && e.manifestTmps[id] == d.manifestTmps[id])
    && UploadsPartlyKept(d.uploads, e.uploads)
  }

  ghost predicate UploadsPartlyKept(before: map<Id, SessionDir>, after: map<Id, SessionDir>) {
    forall id :: PartlyKept(GetAt(before, id), GetAt(after, id))
  }

  /** What may have become of one session directory. */
  predicate PartlyKept(before: Option<SessionDir>, after: Option<SessionDir>) {
    || after == before
    || (before.Some? && after == Some(before.value.(manifestTmp := None)))
    || (before.Some? && before.value.manifest.None? && after.None?)
  }

  lemma LeftoverRemoved(d: Disk, e: Disk, l: Leftover, q: Quarantine)
    requires PartlyCleaned(d, e) && Found(e, l).Some?
    ensures PartlyCleaned(d, Without(e, l).(quarantine := q))
  {
    var f := Without(e, l).(quarantine := q);
    forall id ensures PartlyKept(GetAt(d.uploads, id), GetAt(f.uploads, id)) {
      assert PartlyKept(GetAt(d.uploads, id), GetAt(e.uploads, id));
    }
  }

  lemma AllDirsRemain(d: map<Id, SessionDir>)
    ensures UploadsPartlyKept(d, KeptSessions(d))
  {}

  predicate TidyDir(dir: SessionDir) {
    dir.manifest.Some? && dir.manifestTmp.None?
  }

  /** A directory is moved only after the staged manifest inside it. */
  predicate Alone(d: Disk, l: Leftover) {
    l.UploadDir? ==> Found(d, UploadTmp(l.id)).None?
  }

  lemma WithoutOne(d: Disk, l: Leftover, m: Leftover)
    requires Found(d, l).Some? && Alone(d, l)
    ensures Found(Without(d, l), m) == if m == l then None else Found(d, m)
  {}

  /** Recover started in d, is now in e, and has moved what d held and e does not. */
  ghost predicate Progress(d: Disk, e: Disk, moved: map<Leftover, Artifact>, now: int) {
    && (forall l :: Tracks(d, e, moved, l))
    && CanPlace(d.quarantine, moved, now) && e.quarantine == PlaceAll(d.quarantine, moved, now)
  }

  ghost predicate Tracks(d: Disk, e: Disk, moved: map<Leftover, Artifact>, l: Leftover) {
    if Found(e, l).Some? then l !in moved && Found(e, l) == Found(d, l) else GetAt(moved, l) == Found(d, l)
  }

  lemma NothingMoved(d: Disk, now: int)
    ensures Progress(d, d, map[], now)
  {
    assert PlaceAll(d.quarantine, map[], now) == d.quarantine;
  }

  lemma TracksOneLess(d: Disk, e: Disk, f: Disk, moved: map<Leftover, Artifact>, l: Leftover, x: Artifact, m: Leftover)
    requires Tracks(d, e, moved, l) && Tracks(d, e, moved, m) && Found(e, l) == Some(x)
    requires Found(f, m) == if m == l then None else Found(e, m)
    ensures Tracks(d, f, moved[l := x], m)
  {}

  lemma OneLess(d: Disk, e: Disk, moved: map<Leftover, Artifact>, l: Leftover, now: int)
    requires Progress(d, e, moved, now) && Found(e, l).Some? && Alone(e, l)
    ensures
      var x := Found(e, l).value;
      && (CanQuarantine(d, now) ==> Placed(e.quarantine, l, x, now).Some?)
      && (Placed(e.quarantine, l, x, now).Some? ==>
            Progress(d, Without(e, l).(quarantine := QuarantineOne(e.quarantine, l, x, now)), moved[l := x], now))
  {
    var x := Found(e, l).value;
    assert Tracks(d, e, moved, l);
    PlaceOneMore(d.quarantine, moved, l, x, now);
    if CanQuarantine(d, now) {
      LeftoverAt(d, l);
      assert l in Leftovers(d);
    }
    if Placed(e.quarantine, l, x, now).Some? {
      var f := Without(e, l).(quarantine := QuarantineOne(e.quarantine, l, x, now));
      var after := moved[l := x];
      forall m ensures Tracks(d, f, after, m) {
        WithoutOne(e, l, m);
        FoundIgnoresQuarantine(Without(e, l), f.quarantine, m);
        assert Tracks(d, e, moved, m);
        TracksOneLess(d, e, f, moved, l, x, m);
      }
    }
  }

  /** One call of quarantinePath on the way of a Recover that started in d. */
  lemma OneMove(d: Disk, e: Disk, moved: map<Leftover, Artifact>, l: Leftover, now: int)
    requires Progress(d, e, moved, now) && PartlyCleaned(d, e) && Found(e, l).Some? && Alone(e, l)
    ensures
      var x, n := Found(e, l).value, Target(e.quarantine, l, now);
      var placed := Placed(e.quarantine, l, x, now);
      && (CanQuarantine(d, now) ==> placed.Some?)
      && (placed.Some? ==>
            var rest := Without(e, l).(quarantine := e.quarantine[n := placed.value]);
            Progress(d, rest, moved[l := x], now) && PartlyCleaned(d, rest)
              && OthersKept(e.quarantine, rest.quarantine, n))
  {
    var x, n := Found(e, l).value, Target(e.quarantine, l, now);
    var placed := Placed(e.quarantine, l, x, now);
    OneLess(d, e, moved, l, now);
    if placed.Some? {
      LeftoverRemoved(d, e, l, e.quarantine[n := placed.value]);
    }
  }

  lemma FoundIgnoresQuarantine(d: Disk, q: Quarantine, l: Leftover)
    ensures Found(d.(quarantine := q), l) == Found(d, l)
  {}

  /** When nothing is left to move, the quarantine is the one the report describes. */
  lemma AllMoved(d: Disk, e: Disk, moved: map<Leftover, Artifact>, now: int)
    requires Progress(d, e, moved, now)
    requires e == d.(parts := map[], manifestTmps := map[], uploads := KeptSessions(d.uploads),
                     quarantine := e.quarantine)
    ensures CanQuarantine(d, now) && e == Cleaned(d, now)
  {
    forall l ensures l in moved <==> l in Leftovers(d)
             ensures l in moved && l in Leftovers(d) ==> moved[l] == Leftovers(d)[l]
    {
      LeftoverAt(d, l);
      assert Found(e, l) == None && Tracks(d, e, moved, l);
    }
    Extensional(moved, Leftovers(d));
  }

  /** What Recover leaves of one session directory, and of the first n it visits. */
  function KeptDir(dir: SessionDir): Option<SessionDir> {
    if dir.manifest.Some? then Some(dir.(manifestTmp := None)) else None
  }

  function KeptUpTo(uploads: map<Id, SessionDir>, entries: seq<Id>, n: nat): map<Id, SessionDir>
    requires n <= |entries|
  {
    map id | id in uploads && (id in entries[..n] ==> KeptDir(uploads[id]).Some?) ::
      if id in entries[..n] then KeptDir(uploads[id]).value else uploads[id]
  }

  lemma KeptOneMore(uploads: map<Id, SessionDir>, entries: seq<Id>, n: nat)
    requires Lists(entries, uploads.Keys) && n < |entries|
    ensures
      var u, id := KeptUpTo(uploads, entries, n), entries[n];
      && id in u && u[id] == uploads[id]
      && KeptUpTo(uploads, entries, n + 1) == SetAt(u, id, KeptDir(u[id]))
      && |StagedSessions(KeptUpTo(uploads, entries, n + 1))|
         == |StagedSessions(u)| - (if u[id].manifestTmp.Some? then 1 else 0)
      && |BareSessions(KeptUpTo(uploads, entries, n + 1))|
         == |BareSessions(u)| - (if u[id].manifest.None? then 1 else 0)
  {
    var u, v, id := KeptUpTo(uploads, entries, n), KeptUpTo(uploads, entries, n + 1), entries[n];
    assert id !in entries[..n] && id in uploads;
    forall x ensures GetAt(v, x) == GetAt(SetAt(u, id, KeptDir(u[id])), x) {
      assert x in entries[..n + 1] <==> x in entries[..n] || x == id;
      GetSet(u, id, KeptDir(u[id]), x);
    }
    SameGets(v, SetAt(u, id, KeptDir(u[id])));
    FewerLeftovers(u, id);
  }

  lemma FewerLeftovers(u: map<Id, SessionDir>, id: Id)
    requires id in u
    ensures |StagedSessions(SetAt(u, id, KeptDir(u[id])))|
            == |StagedSessions(u)| - (if u[id].manifestTmp.Some? then 1 else 0)
    ensures |BareSessions(SetAt(u, id, KeptDir(u[id])))| == |BareSessions(u)| - (if u[id].manifest.None? then 1 else 0)
  {
    var v := SetAt(u, id, KeptDir(u[id]));
    assert StagedSessions(v) == StagedSessions(u) - {id};
    assert BareSessions(v) == BareSessions(u) - {id};
  }

  lemma KeptAll(uploads: map<Id, SessionDir>, entries: seq<Id>)
    requires Lists(entries, uploads.Keys)
    ensures KeptUpTo(uploads, entries, |entries|) == KeptSessions(uploads)
    ensures StagedSessions(KeptSessions(uploads)) == {} && BareSessions(KeptSessions(uploads)) == {}
  {
    assert entries[..|entries|] == entries;
  }

  lemma SweptCount(cfg: Config, d: Disk, now: int)
    ensures |d.uploads.Keys - Swept(cfg, d, now).uploads.Keys| == |d.uploads| - |Swept(cfg, d, now).uploads|
  {
    assert Swept(cfg, d, now).uploads.Keys <= d.uploads.Keys;
  }
}
