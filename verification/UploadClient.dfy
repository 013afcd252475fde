/** The client's half of the upload protocol: the chunk loop over a stream and the retry loop
    over a network that loses requests and replies. */
module UploadClient {
  import opened Basics
  import opened Text
  import opened Accounting
  import opened DiskModel
  import opened Trails
  import opened ContentRange
  import opened Gateway
  import S = StoreSpec
  import O = Outcomes

  /** What happens to one exchange: a proxy may answer in the place of the gateway, before or
      after the gateway has done its work, but it does not claim success. */
  datatype Fate = Delivered | RequestLost | ReplyLost | Refused(status: nat) | Replaced(status: nat)

  predicate Honest(fate: Fate) {
    fate.Refused? || fate.Replaced? ==> fate.status >= 400
  }

  /** What becomes of the first requests; all later ones are delivered. */
  type Network = fates: seq<Fate> | forall n | 0 <= n < |fates| :: Honest(fates[n])

  function FateOf(network: Network, n: nat): (fate: Fate)
    ensures Honest(fate)
  {
    if n < |network| then network[n] else Delivered
  }

  /** The network loses nothing. */
  predicate Lossless(network: Network) {
    forall n | 0 <= n < |network| :: network[n] == Delivered
  }

  /** A loss that the client can make up for: the request has not come to the gateway, and the client
      sees no reply or one of those that it retries. */
  predicate Harmless(fate: Fate) {
    fate.RequestLost? || (fate.Refused? && (fate.status == 502 || fate.status == 503 || fate.status == 504))
  }

  /** Only such losses, and never that many in a row. */
  ghost predicate Patient(network: Network, attempts: nat) {
    && (forall n: nat :: FateOf(network, n) == Delivered || Harmless(FateOf(network, n)))
    && (forall n: nat :: DeliversSoon(network, n, attempts))
  }

  ghost predicate DeliversSoon(network: Network, n: nat, attempts: nat) {
    exists k :: n <= k < n + attempts && FateOf(network, k) == Delivered
  }

  lemma LosslessIsPatient(network: Network, attempts: nat)
    requires Lossless(network) && attempts > 0
    ensures Patient(network, attempts)
  {
    forall n: nat ensures DeliversSoon(network, n, attempts) {
      assert FateOf(network, n) == Delivered;
    }
  }

  /** What the client sees of it. */
  datatype Reply = NoReply | Replied(code: nat)

  function Seen(fate: Fate, code: nat): Reply {
    match fate
    case Delivered => Replied(code)
    case Replaced(status) => Replied(status)
    case Refused(status) => Replied(status)
    case _ => NoReply
  }

  /** Whether a request with this fate comes to the gateway at all. */
  predicate Reaches(fate: Fate) {
    fate.Delivered? || fate.ReplyLost? || fate.Replaced?
  }

  /** What became of one PUT of a chunk of that length: its fate, whether the session took the chunk
      in it, and the status with which the gateway answers. */
  datatype Exchange = Exchange(size: nat, fate: Fate, took: bool, code: nat)

  /** After which replies the client tries once more. */
  predicate Again(x: Exchange) {
    var reply := Seen(x.fate, x.code);
    reply.NoReply? || reply.code == 502 || reply.code == 503 || reply.code == 504
  }

  /** The client tries as long as it may and as often as it can. */
  ghost predicate Persistent(log: seq<Exchange>, attempts: nat) {
    && 0 < |log| <= attempts
    && (forall i | 0 <= i < |log| - 1 :: Again(log[i]))
    && (|log| < attempts ==> !Again(log[|log| - 1]))
  }

  /** The exchanges are those with the requests from the n-th on. */
  ghost predicate Drawn(log: seq<Exchange>, network: Network, n: nat) {
    forall i | 0 <= i < |log| :: log[i].fate == FateOf(network, n + i)
  }

  function Total(logs: seq<seq<Exchange>>): nat {
    if logs == [] then 0 else Total(logs[..|logs| - 1]) + |logs[|logs| - 1]|
  }

  /** The logs are those of consecutive requests, from the n-th on. */
  ghost predicate AllDrawn(logs: seq<seq<Exchange>>, network: Network, n: nat) {
    logs == []
    || (AllDrawn(logs[..|logs| - 1], network, n)
        && Drawn(logs[|logs| - 1], network, n + Total(logs[..|logs| - 1])))
  }

  /** Every chunk of at most that many bytes is sent as often as it takes. */
  ghost predicate AllPersistent(logs: seq<seq<Exchange>>, attempts: nat, most: nat) {
    forall i | 0 <= i < |logs| :: Persistent(logs[i], attempts) && NoneLonger(logs[i], most)
  }

  predicate NoneLonger(log: seq<Exchange>, most: nat) {
    forall j | 0 <= j < |log| :: log[j].size <= most
  }

  /** Requests of that length that are tried again. */
  ghost predicate Trying(log: seq<Exchange>, network: Network, n: nat, size: nat) {
    Drawn(log, network, n) && forall i | 0 <= i < |log| :: Again(log[i]) && log[i].size == size
  }

  /** All requests for one chunk of that length. */
  ghost predicate Tried(log: seq<Exchange>, network: Network, n: nat, size: nat, attempts: nat) {
    && Drawn(log, network, n) && Persistent(log, attempts)
    && forall i | 0 <= i < |log| :: log[i].size == size
  }

  lemma TryAgain(log: seq<Exchange>, x: Exchange, network: Network, n: nat, size: nat, attempts: nat)
    requires Trying(log, network, n, size) && |log| < attempts
    requires x.fate == FateOf(network, n + |log|) && x.size == size
    ensures Again(x) ==> Trying(log + [x], network, n, size)
    ensures !Again(x) || |log| + 1 == attempts ==> Tried(log + [x], network, n, size, attempts)
  {}

  predicate Confirmed(x: Exchange) {
    x.took && x.fate.Delivered?
  }

  /** The session took the chunk, but the client does not hear of it. */
  predicate Unheard(x: Exchange) {
    x.took && !x.fate.Delivered?
  }

  /** The session takes a chunk at most once. */
  ghost predicate TakenOnce(log: seq<Exchange>) {
    forall i, j | 0 <= i < j < |log| :: !(log[i].took && log[j].took)
  }

  predicate Survives(log: seq<Exchange>) {
    exists i :: 0 <= i < |log| && Confirmed(log[i])
  }

  predicate Drowned(log: seq<Exchange>) {
    exists i :: 0 <= i < |log| && Unheard(log[i])
  }

  /** A chunk is taken by the first of its requests that comes to the gateway, and by no other. */
  ghost predicate FirstComeFirstTaken(log: seq<Exchange>) {
    forall i | 0 <= i < |log| :: log[i].took <==> Reaches(log[i].fate) && NoneReached(log, i)
  }

  ghost predicate NoneReached(log: seq<Exchange>, n: int)
    requires n <= |log|
  {
    forall j | 0 <= j < n :: !Reaches(log[j].fate)
  }

  lemma DrownedDoesNotSurvive(log: seq<Exchange>)
    requires TakenOnce(log) && Drowned(log)
    ensures !Survives(log)
  {
    var i :| 0 <= i < |log| && Unheard(log[i]);
    forall j | 0 <= j < |log| ensures !Confirmed(log[j]) {
      assert j == i || !(log[i].took && log[j].took);
    }
  }

  // The statuses that the client retries.
  predicate Transient(code: nat) {
    code in {502, 503, 504}
  }

  /** A seekable source, rewound. Each read returns at most what is asked for; nothing means
      that the source has become shorter than it was when it was measured. */
  class Stream {
    const content: Bytes
    // Whether the source may end early.
    const shrinks: bool
    var position: nat

    constructor (content: Bytes, shrinks: bool)
      ensures position == 0 && this.content == content && this.shrinks == shrinks
    {
      this.content, this.shrinks, position := content, shrinks, 0;
    }

    method Read(length: nat) returns (chunk: Bytes)
      requires position <= |content| && length > 0
      modifies this
      ensures |chunk| <= length && position == old(position) + |chunk| <= |content|
      ensures chunk == content[old(position)..position]
      ensures !shrinks && old(position) < |content| ==> chunk != []
    {
      var n: nat :| n <= length && n <= |content| - position && (!shrinks && position < |content| ==> n > 0);
      chunk, position := content[position..position + n], position + n;
    }
  }

  /** The session holds the first k bytes of the source, unless it has been removed. */
  ghost predicate Holds(d: Disk, u: Session, source: Bytes, k: nat) {
    && k <= |source|
    && (u.id in d.uploads ==>
          && d.uploads[u.id].manifestTmp.None? && d.uploads[u.id].data == Some(source[..k])
          && d.uploads[u.id].manifest.Some?
          && d.uploads[u.id].manifest.value == u.(received := k, updatedAt := d.uploads[u.id].manifest.value.updatedAt))
  }

  /** The session as StartUpload returns it for this source. */
  ghost predicate Opened(u: Session, source: Bytes) {
    u.status.Uploading? && u.fileId.None? && u.size == |source| && 0 < |source| <= MAX_INT64
  }

  lemma HeldIsRead(d: Disk, u: Session, source: Bytes, k: nat)
    requires Opened(u, source) && Holds(d, u, source, k) && u.id in d.uploads
    ensures ReadSession(d, u.id) == Ok(d.uploads[u.id].manifest.value)
  {}

  lemma LeftAloneHolds(before: Disk, after: Disk, u: Session, source: Bytes, k: nat)
    requires Holds(before, u, source, k) && LeftAlone(before, after, u.id)
    ensures Holds(after, u, source, k)
  {}

  /** What a delivery may do to a chunk: lose its end with an error, or damage it, but not so
      that the checksum cannot tell. */
  predicate Arrives(cfg: S.Config, chunk: Bytes, body: Body) {
    body.bytes == chunk || !EqualFold(TrimSpace(cfg.sha(chunk)), cfg.sha(body.bytes))
  }

  /** A chunk that was taken extends the prefix by exactly that chunk: no duplicate is taken
      after its first delivery, no other chunk in its place. */
  lemma TakenExtends(
    cfg: S.Config, before: Disk, after: Disk, u: Session, source: Bytes, k: nat, chunk: Bytes, body: Body, r: Session)
    requires Opened(u, source) && Holds(before, u, source, k) && chunk != [] && k + |chunk| <= |source|
    requires chunk == source[k..k + |chunk|] && Arrives(cfg, chunk, body) && cfg.sha(chunk) != ""
    requires u.id in before.uploads && u.id in after.uploads
    requires Took(
      cfg, before.uploads[u.id], u.id, Range(k, k + |chunk| - 1, |source|), body, cfg.sha(chunk), after.uploads[u.id],
      r)
    ensures Holds(after, u, source, k + |chunk|)
  {
    HeldIsRead(before, u, source, k);
    assert body.bytes == chunk;
    assert source[..k] + chunk == source[..k + |chunk|];
  }

  /** Once a chunk has been taken, the retry of its request is refused: its offset is behind. */
  lemma RetriedIsRefused(
    cfg: S.Config, before: Disk, after: SessionDir, u: Session, source: Bytes, k: nat, n: nat, body: Body,
    checksum: string, r: Session)
    requires Opened(u, source) && n > 0 && Holds(before, u, source, k + n) && u.id in before.uploads
    ensures !Took(cfg, before.uploads[u.id], u.id, Range(k, k + n - 1, |source|), body, checksum, after, r)
  {
    HeldIsRead(before, u, source, k + n);
  }

  lemma LeftAloneTwice(a: Disk, b: Disk, c: Disk, id: Id)
    requires LeftAlone(a, b, id) && LeftAlone(b, c, id)
    ensures LeftAlone(a, c, id)
  {}

  /** A request that is refused leaves the session where it was. */
  lemma RefusedSettled(before: Disk, was: Disk, after: Disk, u: Session, source: Bytes, k: nat)
    requires LeftAlone(before, was, u.id) && LeftAlone(was, after, u.id)
    ensures Holds(before, u, source, k) ==> Holds(after, u, source, k)
  {
    LeftAloneTwice(before, was, after, u.id);
    if Holds(before, u, source, k) {
      LeftAloneHolds(before, after, u, source, k);
    }
  }

  lemma TakenIsNext(
    cfg: S.Config, before: Disk, was: Disk, after: SessionDir, u: Session, source: Bytes, k: nat, n: nat, end: nat,
    body: Body, checksum: string, r: Session)
    requires Opened(u, source) && n > 0 && end == k + n && LeftAlone(before, was, u.id) && u.id in was.uploads
    requires Took(cfg, was.uploads[u.id], u.id, Range(k, k + n - 1, |source|), body, checksum, after, r)
    ensures !Holds(before, u, source, end)
  {}

  /** A request that is taken finds the session before the chunk and leaves it after it. */
  lemma TakenSettled(
    cfg: S.Config, before: Disk, was: Disk, after: Disk, u: Session, source: Bytes, k: nat, chunk: Bytes, body: Body,
    r: Session)
    requires Opened(u, source) && chunk != [] && k + |chunk| <= |source| && chunk == source[k..k + |chunk|]
    requires Holds(before, u, source, k) || Holds(before, u, source, k + |chunk|)
    requires LeftAlone(before, was, u.id) && Arrives(cfg, chunk, body) && cfg.sha(chunk) != ""
    requires u.id in was.uploads && u.id in after.uploads
    requires Took(cfg, was.uploads[u.id], u.id, Range(k, k + |chunk| - 1, |source|), body, cfg.sha(chunk),
                  after.uploads[u.id], r)
    ensures Holds(after, u, source, k + |chunk|) && !Holds(before, u, source, k + |chunk|)
  {
    TakenIsNext(cfg, before, was, after.uploads[u.id], u, source, k, |chunk|, k + |chunk|, body, cfg.sha(chunk), r);
    LeftAloneHolds(before, was, u, source, k);
    TakenExtends(cfg, was, after, u, source, k, chunk, body, r);
  }

  lemma ChunkIsWelcome(cfg: S.Config, d: Disk, u: Session, source: Bytes, k: nat, chunk: Bytes)
    requires Opened(u, source) && Holds(d, u, source, k) && u.id in d.uploads
    requires chunk != [] && k + |chunk| <= |source| && IsSha256(cfg.sha(chunk))
    ensures Welcome(cfg, d.uploads[u.id], u.id, Range(k, k + |chunk| - 1, |source|), Body(chunk, false), cfg.sha(chunk))
  {
    HeldIsRead(d, u, source, k);
    Sha256IsTrimmed(cfg.sha(chunk));
    EqualFoldIsEquivalence(cfg.sha(chunk), cfg.sha(chunk), cfg.sha(chunk));
  }

  /** Where the session stands after the exchanges of one chunk, none of them confirmed. */
  ghost predicate Progressed(d: Disk, u: Session, source: Bytes, k: nat, n: nat, log: seq<Exchange>) {
    && TakenOnce(log) && !Survives(log)
    && (if Drowned(log) then Holds(d, u, source, k + n) else Holds(d, u, source, k))
  }

  /** The session takes the chunk, for the first time, or stays where it is. */
  ghost predicate Moves(before: Disk, after: Disk, u: Session, source: Bytes, k: nat, n: nat, took: bool) {
    if took then Holds(after, u, source, k + n) && !Holds(before, u, source, k + n)
    else
      && (Holds(before, u, source, k) ==> Holds(after, u, source, k))
      && (Holds(before, u, source, k + n) ==> Holds(after, u, source, k + n))
  }

  /** What one exchange does to the session. */
  ghost predicate Settled(before: Disk, after: Disk, u: Session, source: Bytes, k: nat, n: nat, x: Exchange) {
    && Moves(before, after, u, source, k, n, x.took) && (x.took ==> Reaches(x.fate))
    && (Seen(x.fate, x.code) == Replied(200) <==> Confirmed(x))
  }

  lemma NextProgress(
    before: Disk, after: Disk, u: Session, source: Bytes, k: nat, n: nat, log: seq<Exchange>, x: Exchange)
    requires Progressed(before, u, source, k, n, log) && Settled(before, after, u, source, k, n, x)
    ensures TakenOnce(log + [x]) && (Survives(log + [x]) <==> Confirmed(x))
    ensures Confirmed(x) ==> Holds(after, u, source, k + n)
    ensures !Confirmed(x) ==> Progressed(after, u, source, k, n, log + [x])
  {
    var more := log + [x];
    assert more[|log|] == x;
    if x.took {
      assert !Drowned(log);
      forall i | 0 <= i < |log| ensures !log[i].took {
        assert Confirmed(log[i]) || Unheard(log[i]) || !log[i].took;
      }
    }
    forall i, j | 0 <= i < j < |more| ensures !(more[i].took && more[j].took) {
      if j < |log| {
        assert !(log[i].took && log[j].took);
      }
    }
    if Drowned(log) {
      var i :| 0 <= i < |log| && Unheard(log[i]);
      assert Unheard(more[i]);
    }
    forall i | 0 <= i < |more| ensures Confirmed(more[i]) ==> Confirmed(x) {
      if i < |log| {
        assert more[i] == log[i] && !Confirmed(log[i]);
      }
    }
    forall i | 0 <= i < |more| ensures Unheard(more[i]) ==> Unheard(x) || Drowned(log) {
      if i < |log| {
        assert more[i] == log[i];
      }
    }
  }

  lemma FirstStaysFirst(before: Disk, u: Session, source: Bytes, k: nat, n: nat, log: seq<Exchange>, x: Exchange)
    requires Progressed(before, u, source, k, n, log) && FirstComeFirstTaken(log) && n > 0 && k + n <= |source|
    requires Opened(u, source) && u.id in before.uploads
    requires x.took ==> Reaches(x.fate) && !Holds(before, u, source, k + n)
    requires Reaches(x.fate) && Holds(before, u, source, k) ==> x.took
    ensures FirstComeFirstTaken(log + [x])
  {
    var more := log + [x];
    if NoneReached(log, |log|) {
      assert !Drowned(log) by {
        forall i | 0 <= i < |log| ensures !Unheard(log[i]) {
          assert !Reaches(log[i].fate);
        }
      }
    } else {
      SomebodyWasFirst(log, |log|);
    }
    forall i | 0 <= i < |more| ensures more[i].took <==> Reaches(more[i].fate) && NoneReached(more, i) {
      if i < |log| {
        assert log[i].took <==> Reaches(log[i].fate) && NoneReached(log, i);
        SameBefore(log, x, i);
      } else {
        SameBefore(log, x, |log|);
      }
    }
  }

  lemma ReachedOneMore(log: seq<Exchange>, x: Exchange)
    ensures NoneReached(log + [x], |log| + 1) <==> NoneReached(log, |log|) && !Reaches(x.fate)
  {
    assert (log + [x])[|log|] == x;
    SameBefore(log, x, |log|);
  }

  lemma SameBefore(log: seq<Exchange>, x: Exchange, n: nat)
    requires n <= |log|
    ensures NoneReached(log + [x], n) <==> NoneReached(log, n)
  {
    if NoneReached(log + [x], n) {
      forall j | 0 <= j < n ensures !Reaches(log[j].fate) {
        assert !Reaches((log + [x])[j].fate);
      }
    }
  }

  /** A chunk whose requests have not been confirmed so far; sure says that nobody interferes. */
  ghost predicate Underway(
    d: Disk, u: Session, source: Bytes, k: nat, n: nat, log: seq<Exchange>, network: Network, from: nat, sure: bool)
  {
    && Progressed(d, u, source, k, n, log) && Trying(log, network, from, n)
    && (sure ==> u.id in d.uploads && FirstComeFirstTaken(log))
  }

  lemma OneMoreExchange(
    before: Disk, after: Disk, u: Session, source: Bytes, k: nat, n: nat, log: seq<Exchange>, x: Exchange,
    network: Network, from: nat, attempts: nat, sure: bool)
    requires Underway(before, u, source, k, n, log, network, from, sure) && |log| < attempts
    requires Opened(u, source) && n > 0 && k + n <= |source| && Settled(before, after, u, source, k, n, x)
    requires x.fate == FateOf(network, from + |log|) && x.size == n
    requires sure ==> u.id in after.uploads && (Reaches(x.fate) && Holds(before, u, source, k) ==> x.took)
    ensures TakenOnce(log + [x]) && (Survives(log + [x]) <==> Confirmed(x))
    ensures Confirmed(x) ==> Holds(after, u, source, k + n)
    ensures sure ==> u.id in after.uploads && FirstComeFirstTaken(log + [x])
    ensures Again(x) ==> Underway(after, u, source, k, n, log + [x], network, from, sure)
    ensures !Again(x) || |log| + 1 == attempts ==> Tried(log + [x], network, from, n, attempts)
  {
    NextProgress(before, after, u, source, k, n, log, x);
    TryAgain(log, x, network, from, n, attempts);
    if sure {
      FirstStaysFirst(before, u, source, k, n, log, x);
    }
  }

  /** Over such a network every chunk is confirmed within the requests that the client may send. */
  lemma {:induction false} PatientSurvives(log: seq<Exchange>, network: Network, n: nat, attempts: nat, m: nat)
    requires Drawn(log, network, n) && Persistent(log, attempts) && FirstComeFirstTaken(log)
    requires Patient(network, attempts) && m <= |log| && NoneReached(log, m)
    ensures Survives(log)
    decreases |log| - m
  {
    if m == |log| {
      assert DeliversSoon(network, n, attempts);
      var k :| n <= k < n + attempts && FateOf(network, k) == Delivered;
      if k - n < |log| {
        assert Reaches(log[k - n].fate);
      } else {
        assert Harmless(log[|log| - 1].fate);
      }
    } else if log[m].fate == Delivered {
      assert log[m].took;
      assert Confirmed(log[m]);
    } else {
      assert Harmless(FateOf(network, n + m));
      PatientSurvives(log, network, n, attempts, m + 1);
    }
  }

  lemma {:induction false} PatientAllSurvive(
    logs: seq<seq<Exchange>>, network: Network, n: nat, attempts: nat, most: nat)
    requires Recorded(logs, network, n, attempts, most) && AllFirst(logs) && Patient(network, attempts)
    ensures AllSurvive(logs)
  {
    if logs != [] {
      var last := |logs| - 1;
      PatientSurvives(logs[last], network, n + Total(logs[..last]), attempts, 0);
      forall i | 0 <= i < |logs| ensures Survives(logs[i]) {
        assert i < last ==> logs[i] == logs[..last][i];
      }
    }
  }

  ghost predicate AllSurvive(logs: seq<seq<Exchange>>) {
    forall i | 0 <= i < |logs| :: Survives(logs[i])
  }

  ghost predicate AllFirst(logs: seq<seq<Exchange>>) {
    forall i | 0 <= i < |logs| :: FirstComeFirstTaken(logs[i])
  }

  ghost predicate AllTakenOnce(logs: seq<seq<Exchange>>) {
    forall i | 0 <= i < |logs| :: TakenOnce(logs[i])
  }

  /** No file that was there has changed. */
  ghost predicate FilesStay(before: Disk, after: Disk) {
    forall x | View(before, x) != VACANT :: View(after, x) == View(before, x)
  }

  lemma FilesKeptStay(before: Disk, after: Disk)
    ensures FilesKept(before, after) ==> FilesStay(before, after)
  {}

  /** An open session under this identifier. */
  predicate IsOpen(d: Disk, id: Id) {
    ReadSession(d, id).Ok? && ReadSession(d, id).value.status == Uploading
  }

  /** The exchanges of an upload, chunk by chunk: each chunk is taken at most once, and is sent as
      often as the client may; after a chunk that does not survive there is no other. */
  ghost predicate Recorded(logs: seq<seq<Exchange>>, network: Network, n: nat, attempts: nat, most: nat) {
    && AllTakenOnce(logs) && AllPersistent(logs, attempts, most) && AllDrawn(logs, network, n)
    && (logs != [] ==> AllSurvive(logs[..|logs| - 1]))
  }

  lemma OneMoreLog(
    logs: seq<seq<Exchange>>, log: seq<Exchange>, network: Network, n: nat, attempts: nat, most: nat, size: nat)
    requires Recorded(logs, network, n, attempts, most) && AllSurvive(logs)
    requires TakenOnce(log) && Tried(log, network, n + Total(logs), size, attempts) && size <= most
    ensures Recorded(logs + [log], network, n, attempts, most) && Total(logs + [log]) == Total(logs) + |log|
    ensures AllSurvive(logs + [log]) <==> Survives(log)
    ensures AllFirst(logs) && FirstComeFirstTaken(log) ==> AllFirst(logs + [log])
  {
    var more := logs + [log];
    assert more[..|more| - 1] == logs && more[|logs|] == log;
    assert NoneLonger(log, most);
    forall i | 0 <= i < |more|
      ensures TakenOnce(more[i]) && Persistent(more[i], attempts) && NoneLonger(more[i], most)
    {
      assert i < |logs| ==> more[i] == logs[i];
    }
  }

  /** The chunk loop at some offset of the source. */
  ghost predicate Sending(
    d: Disk, u: Session, source: Bytes, offset: nat, logs: seq<seq<Exchange>>, network: Network, from: nat,
    attempts: nat, most: nat, sure: bool)
  {
    && Holds(d, u, source, offset) && Recorded(logs, network, from, attempts, most) && AllSurvive(logs)
    && (sure ==> u.id in d.uploads && AllFirst(logs))
  }

  lemma NextChunk(
    before: Disk, after: Disk, u: Session, source: Bytes, offset: nat, size: nat, logs: seq<seq<Exchange>>,
    log: seq<Exchange>, network: Network, from: nat, attempts: nat, most: nat, sure: bool)
    requires Sending(before, u, source, offset, logs, network, from, attempts, most, sure)
    requires TakenOnce(log) && Tried(log, network, from + Total(logs), size, attempts) && size <= most
    requires Survives(log) ==> Holds(after, u, source, offset + size)
    requires sure ==> u.id in after.uploads && FirstComeFirstTaken(log)
    ensures Recorded(logs + [log], network, from, attempts, most) && Total(logs + [log]) == Total(logs) + |log|
    ensures sure ==> AllFirst(logs + [log])
    ensures
      if Survives(log)
      then Sending(after, u, source, offset + size, logs + [log], network, from, attempts, most, sure)
      else !AllSurvive(logs + [log])
  {
    OneMoreLog(logs, log, network, from, attempts, most, size);
  }

  predicate AnyDrowned(logs: seq<seq<Exchange>>) {
    exists i | 0 <= i < |logs| :: Drowned(logs[i])
  }

  lemma NoneDrowned(logs: seq<seq<Exchange>>)
    requires AllSurvive(logs) && AllTakenOnce(logs)
    ensures !AnyDrowned(logs)
  {
    forall i | 0 <= i < |logs| ensures !Drowned(logs[i]) {
      if Drowned(logs[i]) {
        DrownedDoesNotSurvive(logs[i]);
      }
    }
  }

  /** If a request came to the gateway, one was the first, and it was taken. */
  lemma {:induction false} SomebodyWasFirst(log: seq<Exchange>, n: nat)
    requires n <= |log| && !NoneReached(log, n) && FirstComeFirstTaken(log)
    ensures Drowned(log) || Survives(log)
  {
    if NoneReached(log, n - 1) {
      assert log[n - 1].took;
      assert Confirmed(log[n - 1]) || Unheard(log[n - 1]);
    } else {
      SomebodyWasFirst(log, n - 1);
    }
  }

  class Client {
    const gateway: Gateway
    const maxRetries: nat
    const chunkSize: nat
    const network: Network
    // When set, the network damages no body.
    const intact: bool
    // How many requests have been sent.
    var sent: nat

    constructor (gateway: Gateway, maxRetries: nat, chunkSize: nat, network: Network, intact: bool)
      ensures this.gateway == gateway && this.maxRetries == maxRetries && this.chunkSize == chunkSize
      ensures this.network == network && this.intact == intact && sent == 0
    {
      this.gateway, this.maxRetries, this.chunkSize := gateway, maxRetries, chunkSize;
      this.network, this.intact, sent := network, intact, 0;
    }

    function ChunkBytes(): (n: nat)
      ensures n > 0 && (chunkSize > 0 ==> n == chunkSize)
    {
      if chunkSize < 1 then 1 else chunkSize
    }

    /** Nothing but the client's own requests happens, and none fails but on the network, which
        may lose requests and replies but damages none. */
    ghost predicate Alone() {
      intact && gateway.quiet && !gateway.store.mayFail
    }

    /** Sends a request. */
    method Fortune() returns (fate: Fate)
      modifies this`sent
      ensures fate == FateOf(network, old(sent)) && Honest(fate) && sent == old(sent) + 1
    {
      fate, sent := FateOf(network, sent), sent + 1;
    }

    /** One PUT of the chunk at offset k of the source. Success means that the session takes
        the chunk now and that the client hears of it: after a lost reply no retry of the same
        chunk succeeds. */
    method ExchangeChunk(
      ghost u: Session, id: Id, ghost source: Bytes, ghost k: nat, header: string, chunk: Bytes, checksum: string)
      returns (reply: Reply, ghost x: Exchange)
      requires u.id == id && Opened(u, source) && chunk != [] && k + |chunk| <= |source|
      requires chunk == source[k..k + |chunk|]
      requires checksum == gateway.store.cfg.sha(chunk) != ""
      requires Parse(header) == Some(Range(k, k + |chunk| - 1, |source|))
      requires Holds(gateway.store.disk, u, source, k) || Holds(gateway.store.disk, u, source, k + |chunk|)
      modifies this`sent, gateway.store
      ensures Settled(old(gateway.store.disk), gateway.store.disk, u, source, k, |chunk|, x)
      ensures Alone() && IsSha256(checksum) && id in old(gateway.store.disk).uploads ==>
        id in gateway.store.disk.uploads && (Reaches(x.fate) && Holds(old(gateway.store.disk), u, source, k) ==> x.took)
      ensures reply == Seen(x.fate, x.code)
      ensures x.fate == FateOf(network, old(sent)) && sent == old(sent) + 1 && x.size == |chunk|
      ensures gateway.quiet ==> FilesKept(old(gateway.store.disk), gateway.store.disk)
    {
      var fate := Fortune();
      if fate.RequestLost? || fate.Refused? { return Seen(fate, 0), Exchange(|chunk|, fate, false, 0); }
      var body := Body(chunk, false);
      if !intact {
        assert Arrives(gateway.store.cfg, chunk, body);
        body :| Arrives(gateway.store.cfg, chunk, body);
      }
      var code;
      ghost var took;
      code, took := DeliverChunk(u, id, source, k, header, chunk, body, checksum);
      reply, x := Seen(fate, code), Exchange(|chunk|, fate, took, code);
    }

    /** The gateway's part of it. */
    method DeliverChunk(
      ghost u: Session, id: Id, ghost source: Bytes, ghost k: nat, header: string, chunk: Bytes, body: Body,
      checksum: string)
      returns (code: nat, ghost took: bool)
      requires u.id == id && Opened(u, source) && chunk != [] && k + |chunk| <= |source|
      requires chunk == source[k..k + |chunk|] && Arrives(gateway.store.cfg, chunk, body)
      requires intact ==> body == Body(chunk, false)
      requires checksum == gateway.store.cfg.sha(chunk) != ""
      requires Parse(header) == Some(Range(k, k + |chunk| - 1, |source|))
      requires Holds(gateway.store.disk, u, source, k) || Holds(gateway.store.disk, u, source, k + |chunk|)
      modifies gateway.store
      ensures Moves(old(gateway.store.disk), gateway.store.disk, u, source, k, |chunk|, took)
      ensures code == 200 <==> took
      ensures Alone() && IsSha256(checksum) && id in old(gateway.store.disk).uploads ==>
        id in gateway.store.disk.uploads && (Holds(old(gateway.store.disk), u, source, k) ==> took)
      ensures gateway.quiet ==> FilesKept(old(gateway.store.disk), gateway.store.disk)
    {
      ghost var before := gateway.store.disk;
      gateway.Others(id);
      ghost var was := gateway.store.disk;
      if Alone() && IsSha256(checksum) && id in was.uploads && Holds(was, u, source, k) {
        ChunkIsWelcome(gateway.store.cfg, was, u, source, k, chunk);
      }
      var r := gateway.Append(id, header, |chunk|, body, checksum);
      if r.Ok? {
        TakenSettled(gateway.store.cfg, before, was, gateway.store.disk, u, source, k, chunk, body, r.value);
      } else {
        RefusedSettled(before, was, gateway.store.disk, u, source, k);
        RefusedSettled(before, was, gateway.store.disk, u, source, k + |chunk|);
      }
      code, took := if r.Ok? then 200 else Status(r.error), r.Ok?;
    }

    /** _request for a chunk: a counted loop that tries again after a lost connection and after
        the transient statuses. It succeeds if and only if the exchange in which the session takes
        the chunk is itself answered; whatever else happens, the chunk is taken at most once. With
        nobody else about, the first request that comes to the gateway is the one. */
    method PutChunk(
      ghost u: Session, id: Id, ghost source: Bytes, ghost k: nat, header: string, chunk: Bytes, checksum: string)
      returns (ok: bool, ghost log: seq<Exchange>)
      requires u.id == id && Opened(u, source) && chunk != [] && k + |chunk| <= |source|
      requires chunk == source[k..k + |chunk|]
      requires checksum == gateway.store.cfg.sha(chunk) != ""
      requires Parse(header) == Some(Range(k, k + |chunk| - 1, |source|))
      requires Holds(gateway.store.disk, u, source, k)
      modifies this`sent, gateway.store
      ensures ok ==> Holds(gateway.store.disk, u, source, k + |chunk|)
      ensures Tried(log, network, old(sent), |chunk|, maxRetries + 1) && TakenOnce(log) && sent == old(sent) + |log|
      ensures ok <==> Survives(log)
      ensures Alone() && IsSha256(checksum) && id in old(gateway.store.disk).uploads ==>
        id in gateway.store.disk.uploads && FirstComeFirstTaken(log)
      ensures gateway.quiet ==> FilesKept(old(gateway.store.disk), gateway.store.disk)
    {
      var attempts, attempt := maxRetries + 1, 0;
      log := [];
      ghost var sure, from := Alone() && IsSha256(checksum) && id in gateway.store.disk.uploads, sent;
      while attempt < attempts
        invariant 0 <= attempt == |log| <= attempts && sent == from + |log|
        invariant Underway(gateway.store.disk, u, source, k, |chunk|, log, network, from, sure)
        invariant attempt == attempts ==> Tried(log, network, from, |chunk|, attempts)
        invariant gateway.quiet ==> FilesKept(old(gateway.store.disk), gateway.store.disk)
      {
        var reply;
        ghost var x, before := *, gateway.store.disk;
        reply, x := ExchangeChunk(u, id, source, k, header, chunk, checksum);
        OneMoreExchange(before, gateway.store.disk, u, source, k, |chunk|, log, x, network, from, attempts, sure);
        log := log + [x];
        if reply == Replied(200) { return true, log; }
        if reply.Replied? && !(Transient(reply.code) && attempt + 1 < attempts) { return false, log; }
        attempt := attempt + 1;
      }
      return false, log;
    }

    /** The body of the chunk loop: the request with its header and checksum. */
    method PutNext(ghost u: Session, id: Id, ghost source: Bytes, offset: nat, size: nat, chunk: Bytes)
      returns (ok: bool, ghost log: seq<Exchange>)
      requires u.id == id && Opened(u, source) && size == |source| && S.ValidConfig(gateway.store.cfg)
      requires chunk != [] && offset + |chunk| <= size && chunk == source[offset..offset + |chunk|]
      requires Holds(gateway.store.disk, u, source, offset)
      modifies this`sent, gateway.store
      ensures ok ==> Holds(gateway.store.disk, u, source, offset + |chunk|)
      ensures Tried(log, network, old(sent), |chunk|, maxRetries + 1) && TakenOnce(log) && sent == old(sent) + |log|
      ensures ok <==> Survives(log)
      ensures Alone() && IsSha256(gateway.store.cfg.sha(chunk)) && id in old(gateway.store.disk).uploads ==>
        id in gateway.store.disk.uploads && FirstComeFirstTaken(log)
      ensures gateway.quiet ==> FilesKept(old(gateway.store.disk), gateway.store.disk)
    {
      RoundTripIff(offset, |chunk|, size);
      ok, log := PutChunk(u, id, source, offset, Print(offset, |chunk|, size), chunk, gateway.store.cfg.sha(chunk));
    }

    /** The POST that opens the session; it is never retried. The client has the session exactly
        when one was opened and the reply arrives. */
    method StartSession(size: int, checksum: string, info: Info, now: int)
      returns (r: Option<Session>, ghost begun: Option<Session>)
      modifies this`sent, gateway.store
      ensures sent == old(sent) + 1
      ensures r.Some? <==> begun.Some? && FateOf(network, old(sent)).Delivered?
      ensures r.Some? ==> r == begun
      ensures begun.Some? ==>
        && Reaches(FateOf(network, old(sent))) && 0 < size <= gateway.maxUploadBytes
        && begun.value == S.NewSession(begun.value.id, size, Lower(TrimSpace(checksum)), info, now)
        && begun.value.id in gateway.store.disk.uploads
        && gateway.store.disk.uploads[begun.value.id] == StartedDir(begun.value)
      ensures gateway.quiet ==> FilesKept(old(gateway.store.disk), gateway.store.disk)
      ensures gateway.quiet && !gateway.store.mayFail && Reaches(FateOf(network, old(sent)))
              && Accepted(old(gateway.store.State()), size, checksum, info, now)
              ==> begun.Some?
    {
      var fate := Fortune();
      begun := None;
      if fate.RequestLost? || fate.Refused? { return None, begun; }
      var started := gateway.Start(size, checksum, info, now);
      if started.Ok? { begun := Some(started.value); }
      if Seen(fate, if started.Ok? then 201 else Status(started.error)) != Replied(201) { return None, begun; }
      r := Some(started.value);
    }

    /** The POST that completes it; never retried either. */
    method CompleteSession(ghost u: Session, id: Id, ghost source: Bytes) returns (r: Option<File>, ghost fate: Fate)
      requires u.id == id && Opened(u, source) && Holds(gateway.store.disk, u, source, |source|)
      modifies this`sent, gateway.store
      ensures r.Some? ==> Published(gateway.store.cfg, gateway.store.disk, u, source, r.value)
      ensures r.Some? ==> fate.Delivered?
      ensures Alone() && id in old(gateway.store.disk).uploads && fate.Delivered?
              && (u.checksum != "" ==> EqualFold(u.checksum, gateway.store.cfg.sha(source)))
              ==> r.Some?
      ensures fate == FateOf(network, old(sent)) && sent == old(sent) + 1
      ensures gateway.quiet ==> FilesStay(old(gateway.store.disk), gateway.store.disk)
    {
      var fortune := Fortune();
      fate := fortune;
      if fortune.RequestLost? || fortune.Refused? { return None, fate; }
      gateway.Others(id);
      if id in gateway.store.disk.uploads {
        HeldIsRead(gateway.store.disk, u, source, |source|);
        assert source[..|source|] == source;
      }
      var done := gateway.Complete(id);
      if Seen(fortune, if done.Ok? then 201 else Status(done.error)) != Replied(201) { return None, fate; }
      r := Some(done.value);
    }

    /** abort_upload_session with its errors ignored: it is tried like a chunk, and the first of its
        requests that comes to the gateway ends an open session, if nothing fails there. */
    method AbortSession(id: Id) returns (ghost log: seq<Exchange>)
      modifies this`sent, gateway.store
      ensures Tried(log, network, old(sent), 0, maxRetries + 1) && sent == old(sent) + |log|
      ensures !gateway.store.mayFail && IsOpen(old(gateway.store.disk), id) && !NoneReached(log, |log|) ==>
        id !in gateway.store.disk.uploads
      ensures gateway.store.disk == old(gateway.store.disk)
              || gateway.store.disk == PatchSession(old(gateway.store.disk), id, None)
    {
      var attempts, attempt := maxRetries + 1, 0;
      log := [];
      while attempt < attempts
        invariant 0 <= attempt == |log| <= attempts
        invariant Trying(log, network, old(sent), 0) && sent == old(sent) + |log|
        invariant attempt == attempts ==> Tried(log, network, old(sent), 0, attempts)
        invariant gateway.store.disk == old(gateway.store.disk)
                  || gateway.store.disk == PatchSession(old(gateway.store.disk), id, None)
        invariant !gateway.store.mayFail && IsOpen(old(gateway.store.disk), id) ==>
          if NoneReached(log, |log|) then gateway.store.disk == old(gateway.store.disk)
          else id !in gateway.store.disk.uploads
      {
        var fate := Fortune();
        var code, done := 0, false;
        if !fate.RequestLost? && !fate.Refused? {
          PatchSessionTwice(old(gateway.store.disk), id, None, None);
          var r := gateway.Abort(id);
          code, done := if r.Ok? then 204 else Status(r.error), r.Ok?;
        }
        ghost var x := Exchange(0, fate, done, code);
        ReachedOneMore(log, x);
        TryAgain(log, x, network, old(sent), 0, attempts);
        log := log + [x];
        var reply := Seen(fate, code);
        if reply.Replied? && !Transient(reply.code) { return; }
        attempt := attempt + 1;
      }
    }

    /** The store can take a file of that size. */
    ghost predicate Accepted(s: S.Store, size: int, checksum: string, info: Info, now: int) {
      && CanServe(gateway.store.cfg, s, info.owner, now)
      && CanStart(gateway.store.cfg, s.disk, gateway.maxUploadBytes, size, checksum, info.owner, now)
    }

    /** Alone, with a source that does not end early. */
    ghost predicate Untroubled(file: Stream) {
      Alone() && !file.shrinks && forall b :: IsSha256(gateway.store.cfg.sha(b))
    }

    /** The chunk loop. */
    method SendChunks(ghost u: Session, id: Id, file: Stream) returns (ok: bool, ghost logs: seq<seq<Exchange>>)
      requires u.id == id && Opened(u, file.content) && file.position == 0 && S.ValidConfig(gateway.store.cfg)
      requires Holds(gateway.store.disk, u, file.content, 0)
      modifies this`sent, gateway.store, file
      ensures ok ==> Holds(gateway.store.disk, u, file.content, |file.content|) && AllSurvive(logs)
      ensures Recorded(logs, network, old(sent), maxRetries + 1, ChunkBytes())
      ensures sent == old(sent) + Total(logs)
      ensures !ok ==> !AllSurvive(logs) || file.shrinks
      ensures Untroubled(file) && id in old(gateway.store.disk).uploads ==>
        id in gateway.store.disk.uploads && AllFirst(logs)
      ensures gateway.quiet ==> FilesKept(old(gateway.store.disk), gateway.store.disk)
    {
      var size, offset := |file.content|, 0;
      var chunkBytes := ChunkBytes();
      logs := [];
      ghost var sure, from := Untroubled(file) && id in gateway.store.disk.uploads, sent;
      while offset < size
        invariant 0 <= offset == file.position <= size && sent == from + Total(logs)
        invariant Sending(gateway.store.disk, u, file.content, offset, logs, network, from, maxRetries + 1,
                          chunkBytes, sure)
        invariant gateway.quiet ==> FilesKept(old(gateway.store.disk), gateway.store.disk)
      {
        var length := if chunkBytes < size - offset then chunkBytes else size - offset;
        var chunk := file.Read(length);
        if chunk == [] { return false, logs; }
        ghost var log, before := [], gateway.store.disk;
        ok, log := PutNext(u, id, file.content, offset, size, chunk);
        NextChunk(before, gateway.store.disk, u, file.content, offset, |chunk|, logs, log, network, from,
                  maxRetries + 1, chunkBytes, sure);
        logs := logs + [log];
        if !ok { return; }
        offset := offset + |chunk|;
      }
      ok := true;
    }

    /** What follows once the session is open: the chunks, the completion, and on any failure the
        attempt to give the reservation back. */
    method SendAll(ghost u: Session, id: Id, file: Stream)
      returns (r: Option<File>, ghost logs: seq<seq<Exchange>>, ghost last: Option<Fate>, ghost aborts: seq<Exchange>)
      requires u.id == id && Opened(u, file.content) && file.position == 0 && S.ValidConfig(gateway.store.cfg)
      requires Holds(gateway.store.disk, u, file.content, 0)
      modifies this`sent, gateway.store, file
      ensures r.Some? ==> Published(gateway.store.cfg, gateway.store.disk, u, file.content, r.value)
      ensures Recorded(logs, network, old(sent), maxRetries + 1, ChunkBytes())
      ensures last.Some? ==> AllSurvive(logs) && last.value == FateOf(network, old(sent) + Total(logs))
      ensures r.Some? ==> last == Some(Delivered) && !AnyDrowned(logs)
      ensures Untroubled(file) && id in old(gateway.store.disk).uploads
              && (u.checksum != "" ==> EqualFold(u.checksum, gateway.store.cfg.sha(file.content)))
              ==> && AllFirst(logs) && (last.Some? <==> AllSurvive(logs)) && (last == Some(Delivered) ==> r.Some?)
                  && (Patient(network, maxRetries + 1) ==> last.Some?) && (Lossless(network) ==> r.Some?)
      ensures r.None? ==> Persistent(aborts, maxRetries + 1)
      ensures r.None? && Alone() && !NoneReached(aborts, |aborts|) ==> !IsOpen(gateway.store.disk, id)
      ensures gateway.quiet ==> FilesStay(old(gateway.store.disk), gateway.store.disk)
    {
      var ok;
      last, aborts := None, [];
      ok, logs := SendChunks(u, id, file);
      FilesKeptStay(old(gateway.store.disk), gateway.store.disk);
      if ok { NoneDrowned(logs); }
      if Lossless(network) {
        LosslessIsPatient(network, maxRetries + 1);
      }
      if Patient(network, maxRetries + 1) && AllFirst(logs) {
        PatientAllSurvive(logs, network, old(sent), maxRetries + 1, ChunkBytes());
      }
      if !ok {
        aborts := AbortChecked(id);
        return None, logs, last, aborts;
      }
      ghost var fate;
      r, fate := CompleteSession(u, id, file.content);
      last := Some(fate);
      if r.None? { aborts := AbortChecked(id); }
    }

    /** AbortSession, in terms of what it is for. */
    method AbortChecked(id: Id) returns (ghost log: seq<Exchange>)
      modifies this`sent, gateway.store
      ensures Persistent(log, maxRetries + 1)
      ensures !gateway.store.mayFail && !NoneReached(log, |log|) ==> !IsOpen(gateway.store.disk, id)
      ensures FilesKept(old(gateway.store.disk), gateway.store.disk)
    {
      log := AbortSession(id);
    }

    /** upload_large_file; now is the clock of the store when the first request comes to it. When it
        returns a file, that file is in the store and its object is byte for byte the source,
        whatever the chunk size, the short reads, the losses and the retries were, and whatever
        anybody else did to the store in between. A chunk whose reply is lost after the session has
        taken it costs the whole upload. With nobody else about, on a store that can take the file,
        the upload succeeds if and only if the session is confirmed, every chunk is confirmed by the
        first of its requests that comes to the gateway, and so is the completion. The chunks all are
        over a network that only loses requests, and never as many in a row as the client may send;
        and over one that loses nothing the upload succeeds. An upload that fails gives its reservation
        back as soon as a request to do so comes to the gateway. */
    method UploadLargeFile(
      file: Stream, checksum: string, name: string, contentType: string, metadata: map<string, string>, now: int)
      returns (r: Option<File>, ghost u: Option<Session>, ghost logs: seq<seq<Exchange>>, ghost last: Option<Fate>,
               ghost aborts: seq<Exchange>)
      requires gateway.maxUploadBytes <= MAX_INT64 && S.ValidConfig(gateway.store.cfg) && file.position == 0
      modifies this`sent, gateway.store, file
      ensures r.Some? ==>
        && u.Some? && u.value.size == |file.content| > 0 && u.value.info == Describe(name, contentType, metadata)
        && u.value.checksum == Lower(TrimSpace(checksum))
        && Published(gateway.store.cfg, gateway.store.disk, u.value, file.content, r.value)
      ensures u.Some? ==> FateOf(network, old(sent)) == Delivered
      ensures Recorded(logs, network, old(sent) + 1, maxRetries + 1, ChunkBytes())
      ensures last.Some? ==> AllSurvive(logs) && last.value == FateOf(network, old(sent) + 1 + Total(logs))
      ensures r.Some? ==> AllSurvive(logs) && last == Some(Delivered)
      ensures AnyDrowned(logs) ==> r.None?
      ensures Untroubled(file)
              && Accepted(old(gateway.store.State()), |file.content|, checksum,
                          Describe(name, contentType, metadata), now)
              && (checksum != "" ==> EqualFold(Lower(TrimSpace(checksum)), gateway.store.cfg.sha(file.content)))
              ==> && (r.Some? <==>
                      FateOf(network, old(sent)) == Delivered && AllSurvive(logs) && last == Some(Delivered))
                  && AllFirst(logs) && (FateOf(network, old(sent)) == Delivered && AllSurvive(logs) ==> last.Some?)
                  && (Patient(network, maxRetries + 1) && FateOf(network, old(sent)) == Delivered ==> last.Some?)
                  && (Lossless(network) ==> r.Some?)
      ensures r.None? && u.Some? ==> Persistent(aborts, maxRetries + 1)
      ensures r.None? && u.Some? && Alone() && !NoneReached(aborts, |aborts|)
              ==> !IsOpen(gateway.store.disk, u.value.id)
      ensures gateway.quiet ==> FilesStay(old(gateway.store.disk), gateway.store.disk)
    {
      u, logs, last, aborts := None, [], None, [];
      var session;
      ghost var begun;
      session, begun := StartSession(|file.content|, checksum, Describe(name, contentType, metadata), now);
      FilesKeptStay(old(gateway.store.disk), gateway.store.disk);
      if session.None? { return None, u, logs, last, aborts; }
      u := session;
      assert checksum == "" ==> session.value.checksum == "";
      r, logs, last, aborts := SendAll(session.value, session.value.id, file);
    }
  }

  /** A client that is alone with a new store can upload every file within the limits. */
  lemma NewStoreAccepts(c: Client, file: Stream, checksum: string, info: Info, now: int)
    requires c.intact && c.gateway.quiet && !c.gateway.store.mayFail && !file.shrinks
    requires S.ValidConfig(c.gateway.store.cfg) && forall b :: IsSha256(c.gateway.store.cfg.sha(b))
    requires 0 < |file.content| <= c.gateway.maxUploadBytes && (checksum == "" || IsSha256(checksum))
    requires c.gateway.store.cfg.quota == 0 || |file.content| <= c.gateway.store.cfg.quota
    ensures c.Untroubled(file) && c.Accepted(S.Opened(EMPTY), |file.content|, checksum, info, now)
  {
    O.EmptyStoreServes(c.gateway.store.cfg, now);
    O.WithinLimitIsCountable(c.gateway.store.cfg, EMPTY, info.owner);
  }
}
