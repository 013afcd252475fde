/** The per-owner usage index: what one incremental update does to a bucket, what a full
    rescan would compute, and when the two agree. */
module Accounting {
  import opened Basics
  import opened Text
  import opened Maps

  const MAX_INT64 := 0x7fff_ffff_ffff_ffff
  const ANONYMOUS := "_anonymous"

  /** The owner a record is charged to. */
  datatype Owner = Owner(name: string)

  function NormalizeOwner(owner: string): string {
    var t := TrimSpace(owner);
    if t == "" then ANONYMOUS else t
  }

  lemma AnonymousIsTrimmed()
    ensures TrimSpace(ANONYMOUS) == ANONYMOUS
  {
    assert !IsSpace(ANONYMOUS[0]) && !IsSpace(ANONYMOUS[|ANONYMOUS| - 1]);
    TrimFixed(ANONYMOUS);
  }

  /** Owners are normalized when a record is read and again when the index is updated; the
      second time changes nothing. */
  lemma NormalizeIdempotent(owner: string)
    ensures NormalizeOwner(NormalizeOwner(owner)) == NormalizeOwner(owner)
  {
    TrimIdempotent(owner);
    AnonymousIsTrimmed();
  }

  /** ownerFromMetadata */
  function OwnerFromMetadata(metadata: map<string, string>): (o: Owner)
    ensures o.name != ""
    ensures "owner" in metadata && TrimSpace(metadata["owner"]) != "" ==> o.name == TrimSpace(metadata["owner"])
    ensures "owner" !in metadata || TrimSpace(metadata["owner"]) == "" ==> o.name == ANONYMOUS
  {
    Owner(NormalizeOwner(if "owner" in metadata then metadata["owner"] else ""))
  }

  /** Two's-complement wrap-around of the sum or difference of two 64-bit numbers. */
  function Wrap(x: int): int {
    if x > MAX_INT64 then x - 0x1_0000_0000_0000_0000
    else if x < -MAX_INT64 - 1 then x + 0x1_0000_0000_0000_0000
    else x
  }

  datatype Entry = Entry(bytes: int, records: int)

  const ZERO := Entry(0, 0)

  // Only owners with an entry are listed.
  type Bucket<O> = map<O, Entry>

  function At<O>(b: Bucket<O>, owner: O): Entry {
    if owner in b then b[owner] else ZERO
  }

  /** The "from" half of moveUsage: an owner whose bytes reach zero loses the entry. */
  function Take<O>(b: Bucket<O>, owner: O, size: int, records: int): Bucket<O> {
    var left := Entry(Wrap(At(b, owner).bytes - size), At(b, owner).records - records);
    if left.bytes <= 0 then b - {owner}
    else b[owner := if left.records < 0 then left.(records := 0) else left]
  }

  /** The "to" half of moveUsage. */
  function Give<O>(b: Bucket<O>, owner: O, size: int, records: int): Bucket<O> {
    b[owner := Entry(Wrap(At(b, owner).bytes + size), At(b, owner).records + records)]
  }

  // moveUsage does nothing for sizes that are not positive.
  function Released<O>(b: Bucket<O>, owner: O, size: int): Bucket<O> {
    if size <= 0 then b else Take(b, owner, size, 1)
  }

  function Charged<O>(b: Bucket<O>, owner: O, size: int): Bucket<O> {
    if size <= 0 then b else Give(b, owner, size, 1)
  }

  /** No update ever shows an owner fewer than no records. */
  lemma RecordsStayNonNegative<O(!new)>(b: Bucket<O>, owner: O, size: int)
    requires forall o :: At(b, o).records >= 0
    ensures forall o :: At(Released(b, owner, size), o).records >= 0 && At(Charged(b, owner, size), o).records >= 0
  {
    forall o ensures At(Released(b, owner, size), o).records >= 0 && At(Charged(b, owner, size), o).records >= 0 {
      assert At(b, o).records >= 0 && At(b, owner).records >= 0;
    }
  }

  // ---------------------------------------------------------------- rescans

  /** What one record on disk costs its owner. */
  datatype Charge<O> = Charge(owner: O, size: int)
  type Charges<K, O> = map<K, Charge<O>>

  ghost function BytesFor<O(!new)>(owner: O): Charge<O> -> int {
    (c: Charge<O>) => if c.owner == owner then c.size else 0
  }

  ghost function RecordFor<O(!new)>(owner: O): Charge<O> -> int {
    (c: Charge<O>) => if c.owner == owner then 1 else 0
  }

  /** The bytes of one owner among the given records. */
  ghost function BytesOf<K, O(!new)>(c: Charges<K, O>, owner: O): int {
    Sum(c, BytesFor(owner))
  }

  ghost function RecordsOf<K, O(!new)>(c: Charges<K, O>, owner: O): int {
    Sum(c, RecordFor(owner))
  }

  ghost predicate NonNegative<K, O>(c: Charges<K, O>) {
    forall k | k in c :: c[k].size >= 0
  }

  ghost predicate Fits<K, O(!new)>(c: Charges<K, O>) {
    forall o :: BytesOf(c, o) <= MAX_INT64
  }

  ghost function Owners<K, O>(c: Charges<K, O>): set<O> {
    set k | k in c :: c[k].owner
  }

  /** The bucket a full rescan builds. */
  ghost function Rescan<K, O(!new)>(c: Charges<K, O>): Bucket<O> {
    map o | o in Owners(c) :: Entry(BytesOf(c, o), RecordsOf(c, o))
  }

  /** The incremental bucket gives every owner the bytes a rescan would. */
  ghost predicate Agrees<K, O(!new)>(b: Bucket<O>, c: Charges<K, O>) {
    forall o :: At(b, o).bytes == BytesOf(c, o)
  }

  lemma RecordsOfOwner<K, O(!new)>(c: Charges<K, O>, o: O)
    ensures RecordsOf(c, o) > 0 <==> o in Owners(c)
    ensures RecordsOf(c, o) >= 0
  {
    SumPositiveIff(c, RecordFor(o));
    SumNonNegative(c, RecordFor(o));
    if o in Owners(c) {
      var k :| k in c && c[k].owner == o;
      assert RecordFor(o)(c[k]) > 0;
    }
  }

  lemma {:induction false} NoRecordsNoBytes<K, O(!new)>(c: Charges<K, O>, o: O)
    requires o !in Owners(c)
    ensures BytesOf(c, o) == 0 && RecordsOf(c, o) == 0
    decreases |c|
  {
    if |c| != 0 {
      var k := Any(c);
      assert c[k].owner in Owners(c);
      NoRecordsNoBytes(c - {k}, o);
    }
  }

  lemma RescanAt<K, O(!new)>(c: Charges<K, O>, o: O)
    ensures At(Rescan(c), o) == Entry(BytesOf(c, o), RecordsOf(c, o))
    ensures o in Rescan(c) <==> RecordsOf(c, o) > 0
  {
    RecordsOfOwner(c, o);
    if o !in Owners(c) {
      NoRecordsNoBytes(c, o);
    }
  }

  lemma RescanAgrees<K, O(!new)>(c: Charges<K, O>)
    ensures Agrees(Rescan(c), c)
  {
    forall o ensures At(Rescan(c), o).bytes == BytesOf(c, o) {
      RescanAt(c, o);
    }
  }

  lemma BytesNonNegative<K, O(!new)>(c: Charges<K, O>, o: O)
    requires NonNegative(c)
    ensures BytesOf(c, o) >= 0
  {
    SumNonNegative(c, BytesFor(o));
  }

  // ---------------------------------------------------------------- bytes, step by step

  lemma ReleasedBytes<O>(b: Bucket<O>, owner: O, size: int, o: O)
    requires 0 <= size && 0 <= At(b, owner).bytes - size <= MAX_INT64
    ensures At(Released(b, owner, size), o).bytes == At(b, o).bytes - if o == owner then size else 0
  {}

  lemma ChargedBytes<O>(b: Bucket<O>, owner: O, size: int, o: O)
    requires 0 <= size && 0 <= At(b, owner).bytes && At(b, owner).bytes + size <= MAX_INT64
    ensures At(Charged(b, owner, size), o).bytes == At(b, o).bytes + if o == owner then size else 0
  {}

  lemma AfterRelease<K, O(!new)>(c: Charges<K, O>, k: K, o: O)
    requires NonNegative(c) && Fits(c) && k in c
    ensures BytesOf(c - {k}, o) == BytesOf(c, o) - (if o == c[k].owner then c[k].size else 0)
    ensures RecordsOf(c - {k}, o) == RecordsOf(c, o) - (if o == c[k].owner then 1 else 0)
    ensures 0 <= BytesOf(c - {k}, o) <= MAX_INT64 && RecordsOf(c - {k}, o) >= 0
  {
    SumRemove(c, k, BytesFor(o));
    SumRemove(c, k, RecordFor(o));
    BytesNonNegative(c - {k}, o);
    RecordsOfOwner(c - {k}, o);
    assert BytesOf(c, o) <= MAX_INT64;
  }

  /** Releasing a record keeps the bytes right, for every size. */
  lemma ReleaseAgrees<K, O(!new)>(b: Bucket<O>, c: Charges<K, O>, k: K)
    requires Agrees(b, c) && NonNegative(c) && Fits(c) && k in c
    ensures Agrees(Released(b, c[k].owner, c[k].size), c - {k})
  {
    var owner, size := c[k].owner, c[k].size;
    forall o ensures At(Released(b, owner, size), o).bytes == BytesOf(c - {k}, o) {
      AfterRelease(c, k, owner);
      AfterRelease(c, k, o);
      assert At(b, o).bytes == BytesOf(c, o) && At(b, owner).bytes == BytesOf(c, owner);
      ReleasedBytes(b, owner, size, o);
    }
  }

  /** Charging a new record keeps the bytes right exactly when the owner's bytes still fit
      64 bits; with quotas off nothing else guards that. */
  lemma ChargeAgreesIff<K, O(!new)>(b: Bucket<O>, c: Charges<K, O>, k: K, x: Charge<O>)
    requires Agrees(b, c) && NonNegative(c) && Fits(c) && k !in c
    requires 0 <= x.size <= MAX_INT64
    ensures Agrees(Charged(b, x.owner, x.size), c[k := x])
            <==> BytesOf(c, x.owner) + x.size <= MAX_INT64
  {
    var after, sum := Charged(b, x.owner, x.size), BytesOf(c, x.owner) + x.size;
    BytesNonNegative(c, x.owner);
    SumAdd(c, k, x, BytesFor(x.owner));
    assert At(b, x.owner).bytes == BytesOf(c, x.owner);
    if sum <= MAX_INT64 {
      forall o ensures At(after, o).bytes == BytesOf(c[k := x], o) {
        SumAdd(c, k, x, BytesFor(o));
        assert At(b, o).bytes == BytesOf(c, o);
        ChargedBytes(b, x.owner, x.size, o);
      }
    } else {
      assert BytesOf(c, x.owner) <= MAX_INT64;
      assert At(after, x.owner).bytes == Wrap(sum) < sum == BytesOf(c[k := x], x.owner);
    }
  }

  lemma FitsBeforeAdd<K, O(!new)>(c: Charges<K, O>, k: K, x: Charge<O>)
    requires k !in c && Fits(c[k := x]) && x.size >= 0
    ensures Fits(c) && BytesOf(c, x.owner) + x.size <= MAX_INT64
  {
    forall o ensures BytesOf(c, o) <= MAX_INT64 {
      SumAdd(c, k, x, BytesFor(o));
      assert BytesOf(c[k := x], o) <= MAX_INT64;
    }
    SumAdd(c, k, x, BytesFor(x.owner));
    assert BytesOf(c[k := x], x.owner) <= MAX_INT64;
  }

  lemma FitsAfterRemove<K, O(!new)>(c: Charges<K, O>, k: K)
    requires k in c && NonNegative(c) && Fits(c)
    ensures Fits(c - {k})
  {
    forall o ensures BytesOf(c - {k}, o) <= MAX_INT64 {
      SumRemove(c, k, BytesFor(o));
      assert BytesOf(c, o) <= MAX_INT64;
    }
  }

  // ---------------------------------------------------------------- there and back

  /** Releasing a record and charging it again gives back the bucket unless the owner's other
      records are all empty: then the entry is dropped and their number with it. */
  lemma ReleaseThenChargeIff<O>(b: Bucket<O>, owner: O, size: int)
    requires 0 < size && owner in b && size <= b[owner].bytes <= MAX_INT64 && b[owner].records > 0
    ensures Charged(Released(b, owner, size), owner, size) == b
            <==> (b[owner].bytes == size ==> b[owner].records == 1)
  {
    var back := Charged(Released(b, owner, size), owner, size);
    assert forall o :: o != owner ==> GetAt(back, o) == GetAt(b, o);
    if b[owner].bytes == size ==> b[owner].records == 1 {
      SameGets(back, b);
    } else {
      assert back[owner] != b[owner];
    }
  }

  /** And the other way round, unless all the records that the owner has are empty. */
  lemma ChargeThenReleaseIff<O>(b: Bucket<O>, owner: O, size: int)
    requires 0 < size && 0 <= At(b, owner).bytes && At(b, owner).bytes + size <= MAX_INT64 && At(b, owner).records >= 0
    ensures Released(Charged(b, owner, size), owner, size) == b <==> (owner in b ==> b[owner].bytes > 0)
  {
    var back := Released(Charged(b, owner, size), owner, size);
    assert forall o :: o != owner ==> GetAt(back, o) == GetAt(b, o);
    if owner in b ==> b[owner].bytes > 0 {
      SameGets(back, b);
    } else {
      assert owner !in back;
    }
  }

  // ---------------------------------------------------------------- record counts

  lemma ReleasedEntry<O>(b: Bucket<O>, owner: O, size: int, o: O)
    requires 0 < size && 0 <= At(b, owner).bytes - size <= MAX_INT64 && At(b, owner).records >= 1
    ensures
      var after, e := Released(b, owner, size), At(b, o);
      if o != owner then (o in after <==> o in b) && At(after, o) == e
      else (o in after <==> e.bytes != size) && (o in after ==> after[o] == Entry(e.bytes - size, e.records - 1))
  {}

  lemma ChargedEntry<O>(b: Bucket<O>, owner: O, size: int, o: O)
    requires 0 < size && 0 <= At(b, owner).bytes && At(b, owner).bytes + size <= MAX_INT64
    ensures
      var after, e := Charged(b, owner, size), At(b, o);
      if o != owner then (o in after <==> o in b) && At(after, o) == e
      else o in after && after[o] == Entry(e.bytes + size, e.records + 1)
  {}

  /** What a release leaves the owner with: no entry if and only if no bytes. */
  lemma ReleasedAt<K, O(!new)>(c: Charges<K, O>, k: K, o: O)
    requires NonNegative(c) && Fits(c) && k in c && c[k].size > 0
    ensures
      var b, rest := Released(Rescan(c), c[k].owner, c[k].size), c - {k};
      if o == c[k].owner && BytesOf(rest, o) == 0 then o !in b
      else
        && (o in b <==> RecordsOf(rest, o) > 0 || (o == c[k].owner && BytesOf(rest, o) > 0))
        && (o in b ==> b[o] == Entry(BytesOf(rest, o), RecordsOf(rest, o)))
  {
    RescanAt(c, o);
    RescanAt(c, c[k].owner);
    AfterRelease(c, k, o);
    AfterRelease(c, k, c[k].owner);
    ReleasedEntry(Rescan(c), c[k].owner, c[k].size, o);
  }

  lemma BytesNeedRecords<K, O(!new)>(c: Charges<K, O>, o: O)
    ensures BytesOf(c, o) != 0 ==> RecordsOf(c, o) > 0
  {
    RecordsOfOwner(c, o);
    if o !in Owners(c) {
      NoRecordsNoBytes(c, o);
    }
  }

  /** From a bucket equal to a rescan, a release gives the rescanned bucket exactly when
      the size is positive and the owner is not left with nothing but empty records. */
  lemma ReleaseExactIff<K, O(!new)>(c: Charges<K, O>, k: K)
    requires NonNegative(c) && Fits(c) && k in c
    ensures Released(Rescan(c), c[k].owner, c[k].size) == Rescan(c - {k})
            <==> c[k].size > 0 && (BytesOf(c - {k}, c[k].owner) == 0 ==> RecordsOf(c - {k}, c[k].owner) == 0)
  {
    var owner, size, rest := c[k].owner, c[k].size, c - {k};
    var b := Released(Rescan(c), owner, size);
    RescanAt(rest, owner);
    RecordsOfOwner(rest, owner);
    if size == 0 {
      RescanAt(c, owner);
      SumRemove(c, k, RecordFor(owner));
      assert At(b, owner) != At(Rescan(rest), owner);
    } else {
      ReleasedAt(c, k, owner);
      if BytesOf(rest, owner) == 0 ==> RecordsOf(rest, owner) == 0 {
        forall o ensures o in b <==> o in Rescan(rest)
                 ensures o in b && o in Rescan(rest) ==> b[o] == Rescan(rest)[o]
        {
          RescanAt(rest, o);
          ReleasedAt(c, k, o);
          BytesNeedRecords(rest, o);
        }
        Extensional(b, Rescan(rest));
      }
    }
  }

  lemma ChargedAt<K, O(!new)>(c: Charges<K, O>, k: K, x: Charge<O>, o: O)
    requires NonNegative(c) && k !in c && 0 < x.size && BytesOf(c, x.owner) + x.size <= MAX_INT64
    ensures
      var b, after := Charged(Rescan(c), x.owner, x.size), c[k := x];
      (o in b <==> RecordsOf(after, o) > 0) && (o in b ==> b[o] == Entry(BytesOf(after, o), RecordsOf(after, o)))
  {
    RescanAt(c, o);
    RescanAt(c, x.owner);
    RecordsOfOwner(c, o);
    BytesNonNegative(c, x.owner);
    SumAdd(c, k, x, BytesFor(o));
    SumAdd(c, k, x, RecordFor(o));
    ChargedEntry(Rescan(c), x.owner, x.size, o);
  }

  /** From a bucket equal to a rescan, a charge gives the rescanned bucket exactly when the
      size is positive and the sum fits 64 bits. */
  lemma ChargeExactIff<K, O(!new)>(c: Charges<K, O>, k: K, x: Charge<O>)
    requires NonNegative(c) && Fits(c) && k !in c && 0 <= x.size <= MAX_INT64
    ensures Charged(Rescan(c), x.owner, x.size) == Rescan(c[k := x])
            <==> x.size > 0 && BytesOf(c, x.owner) + x.size <= MAX_INT64
  {
    var b, after := Charged(Rescan(c), x.owner, x.size), c[k := x];
    if x.size == 0 {
      RescanAt(c, x.owner);
      RescanAt(after, x.owner);
      SumAdd(c, k, x, RecordFor(x.owner));
      assert At(b, x.owner) != At(Rescan(after), x.owner);
    } else {
      RescanAgrees(c);
      ChargeAgreesIff(Rescan(c), c, k, x);
      RescanAgrees(after);
      if BytesOf(c, x.owner) + x.size <= MAX_INT64 {
        forall o ensures o in b <==> o in Rescan(after)
                 ensures o in b && o in Rescan(after) ==> b[o] == Rescan(after)[o]
        {
          ChargedAt(c, k, x, o);
          RescanAt(after, o);
        }
        Extensional(b, Rescan(after));
      }
    }
  }

  /** What a rescan shows for one owner. */
  ghost function EntryOf<K, O(!new)>(c: Charges<K, O>, o: O): Option<Entry> {
    if RecordsOf(c, o) > 0 then Some(Entry(BytesOf(c, o), RecordsOf(c, o))) else None
  }

  /** A bucket with the entries a rescan of c would give. */
  ghost predicate Shows<K, O(!new)>(b: Bucket<O>, c: Charges<K, O>) {
    forall o :: GetAt(b, o) == EntryOf(c, o)
  }

  lemma RescanShows<K, O(!new)>(c: Charges<K, O>)
    ensures Shows(Rescan(c), c)
  {
    forall o ensures GetAt(Rescan(c), o) == EntryOf(c, o) {
      RescanAt(c, o);
    }
  }

  lemma EntryWithMore<K, O(!new)>(c: Charges<K, O>, k: K, x: Charge<O>, o: O)
    requires k !in c
    ensures EntryOf(c[k := x], o)
            == if o == x.owner then Some(Entry(BytesOf(c, o) + x.size, RecordsOf(c, o) + 1)) else EntryOf(c, o)
  {
    RecordsOfOwner(c, o);
    SumAdd(c, k, x, BytesFor(o));
    SumAdd(c, k, x, RecordFor(o));
  }

  /** One record more in an entry. */
  function Joined(e: Entry, size: int): Entry {
    Entry(e.bytes + size, e.records + 1)
  }

  lemma ShownAt<K, O(!new)>(b: Bucket<O>, c: Charges<K, O>, o: O)
    requires Shows(b, c)
    ensures At(b, o) == Entry(BytesOf(c, o), RecordsOf(c, o))
  {
    assert GetAt(b, o) == EntryOf(c, o);
    RecordsOfOwner(c, o);
    BytesNeedRecords(c, o);
  }

  lemma ShowsMore<K, O(!new)>(b: Bucket<O>, more: Bucket<O>, c: Charges<K, O>, k: K, x: Charge<O>)
    requires k !in c && Shows(b, c) && Shows(more, c[k := x])
    ensures more == b[x.owner := Joined(At(b, x.owner), x.size)]
  {
    var added := b[x.owner := Joined(At(b, x.owner), x.size)];
    ShownAt(b, c, x.owner);
    forall o ensures GetAt(more, o) == GetAt(added, o) {
      assert GetAt(b, o) == EntryOf(c, o);
      assert GetAt(more, o) == EntryOf(c[k := x], o);
      EntryWithMore(c, k, x, o);
    }
    SameGets(more, added);
  }

  /** What one more record does to a rescan, empty records included. */
  lemma RescanAdd<K, O(!new)>(c: Charges<K, O>, k: K, x: Charge<O>)
    requires k !in c
    ensures Rescan(c[k := x]) == Rescan(c)[x.owner := Joined(At(Rescan(c), x.owner), x.size)]
  {
    RescanShows(c);
    RescanShows(c[k := x]);
    ShowsMore(Rescan(c), Rescan(c[k := x]), c, k, x);
  }

  lemma FitsWithOneMore<K, O(!new)>(c: Charges<K, O>, k: K, x: Charge<O>)
    requires k !in c && Fits(c) && BytesOf(c, x.owner) + x.size <= MAX_INT64
    ensures Fits(c[k := x])
  {
    var after := c[k := x];
    forall o ensures BytesOf(after, o) <= MAX_INT64 {
      SumAdd(c, k, x, BytesFor(o));
      assert BytesOf(c, o) <= MAX_INT64;
    }
  }

  /** The overflow check of the rescan is exact. */
  lemma RescanAddFits<K, O(!new)>(c: Charges<K, O>, k: K, x: Charge<O>)
    requires k !in c && Fits(c)
    ensures At(Rescan(c), x.owner).bytes <= MAX_INT64 - x.size <==> BytesOf(c[k := x], x.owner) <= MAX_INT64
    ensures BytesOf(c[k := x], x.owner) <= MAX_INT64 ==> Fits(c[k := x])
  {
    RescanAt(c, x.owner);
    SumAdd(c, k, x, BytesFor(x.owner));
    if BytesOf(c[k := x], x.owner) <= MAX_INT64 {
      FitsWithOneMore(c, k, x);
    }
  }

  /** When every record has a positive size, a release follows the rescan exactly. */
  lemma PositiveSizesStayExact<K, O(!new)>(c: Charges<K, O>, k: K)
    requires Fits(c) && k in c
    requires forall j | j in c :: c[j].size > 0
    ensures Released(Rescan(c), c[k].owner, c[k].size) == Rescan(c - {k})
  {
    ReleaseExactIff(c, k);
    SumAtLeast(c - {k}, RecordFor(c[k].owner), BytesFor(c[k].owner));
    RecordsOfOwner(c - {k}, c[k].owner);
  }

  // ---------------------------------------------------------------- capacity figures

  ghost function InBytes(): Entry -> int {
    (e: Entry) => e.bytes
  }

  ghost function InRecords(): Entry -> int {
    (e: Entry) => e.records
  }

  /** The bytes of all owners together, as the capacity report adds them up. */
  ghost function TotalBytes<O>(b: Bucket<O>): int {
    Sum(b, InBytes())
  }

  /** The records of all owners together. */
  ghost function TotalRecords<O>(b: Bucket<O>): int {
    Sum(b, InRecords())
  }

  ghost function Sizes<O>(): Charge<O> -> int {
    (x: Charge<O>) => x.size
  }

  lemma NewEntry<O>(b: Bucket<O>, o: O, e: Entry)
    requires o !in b
    ensures TotalRecords(b[o := e]) == TotalRecords(b) + e.records && TotalBytes(b[o := e]) == TotalBytes(b) + e.bytes
  {
    SumAdd(b, o, e, InRecords());
    SumAdd(b, o, e, InBytes());
  }

  /** Without its record k the owner has one record and its size less. */
  lemma EntryWithout<K, O(!new)>(c: Charges<K, O>, k: K, o: O)
    requires k in c
    ensures
      var rest, mine := c - {k}, o == c[k].owner;
      && RecordsOf(c, o) == RecordsOf(rest, o) + (if mine then 1 else 0) && RecordsOf(rest, o) >= 0
      && BytesOf(c, o) == BytesOf(rest, o) + (if mine then c[k].size else 0)
      && (RecordsOf(rest, o) == 0 ==> BytesOf(rest, o) == 0)
  {
    SumRemove(c, k, BytesFor(o));
    SumRemove(c, k, RecordFor(o));
    RecordsOfOwner(c - {k}, o);
    BytesNeedRecords(c - {k}, o);
  }

  lemma ShowsWithout<K, O(!new)>(b: Bucket<O>, c: Charges<K, O>, k: K)
    requires k in c && Shows(b, c)
    ensures Shows(SetAt(b, c[k].owner, EntryOf(c - {k}, c[k].owner)), c - {k})
  {
    var v := EntryOf(c - {k}, c[k].owner);
    var before := SetAt(b, c[k].owner, v);
    forall o ensures GetAt(before, o) == EntryOf(c - {k}, o) {
      GetSet(b, c[k].owner, v, o);
      EntryWithout(c, k, o);
      assert GetAt(b, o) == EntryOf(c, o);
    }
  }

  /** The totals of the bucket without that record. */
  lemma TotalsWithout<K, O(!new)>(b: Bucket<O>, c: Charges<K, O>, k: K)
    requires k in c && Shows(b, c)
    ensures
      var before := SetAt(b, c[k].owner, EntryOf(c - {k}, c[k].owner));
      TotalRecords(b) == TotalRecords(before) + 1 && TotalBytes(b) == TotalBytes(before) + c[k].size
  {
    var o := c[k].owner;
    SumSet(b, o, EntryOf(c - {k}, o), InRecords());
    SumSet(b, o, EntryOf(c - {k}, o), InBytes());
    EntryWithout(c, k, o);
    assert GetAt(b, o) == EntryOf(c, o);
  }

  lemma NothingShown<K, O(!new)>(b: Bucket<O>, c: Charges<K, O>)
    requires Shows(b, c) && |c| == 0
    ensures |b| == 0
  {
    forall o ensures o !in b {
      assert GetAt(b, o) == EntryOf(c, o);
    }
    assert b.Keys == {};
  }

  /** Such a bucket counts the records and adds up their sizes. */
  lemma {:induction false} ShownCounts<K, O(!new)>(b: Bucket<O>, c: Charges<K, O>)
    requires Shows(b, c)
    ensures TotalRecords(b) == |c| && TotalBytes(b) == Sum(c, Sizes())
    decreases |c|
  {
    if |c| == 0 {
      NothingShown(b, c);
    } else {
      var k := Any(c);
      ShowsWithout(b, c, k);
      ShownCounts(SetAt(b, c[k].owner, EntryOf(c - {k}, c[k].owner)), c - {k});
      TotalsWithout(b, c, k);
      assert |c - {k}| == |c| - 1;
      assert Sum(c, Sizes()) == Sizes()(c[k]) + Sum(c - {k}, Sizes());
    }
  }

  lemma AtRemoved<O>(b: Bucket<O>, o: O, p: O)
    ensures At(b - {o}, p) == if p == o then ZERO else At(b, p)
  {}

  lemma TotalRemove<O>(b: Bucket<O>, o: O)
    ensures TotalBytes(b) == At(b, o).bytes + TotalBytes(b - {o})
  {
    if o in b {
      SumRemove(b, o, InBytes());
    } else {
      RemoveAbsent(b, o);
    }
  }

  lemma {:induction false} NoBytesNoTotal<O(!new)>(b: Bucket<O>)
    requires forall o :: At(b, o).bytes == 0
    ensures TotalBytes(b) == 0
    decreases |b|
  {
    if |b| != 0 {
      var o := Any(b);
      assert At(b, o).bytes == 0;
      TotalRemove(b, o);
      forall p ensures At(b - {o}, p).bytes == 0 {
        AtRemoved(b, o, p);
      }
      NoBytesNoTotal(b - {o});
    }
  }

  /** Buckets that show every owner the same bytes report the same capacity. */
  lemma {:induction false} SameBytesSameCapacity<O(!new)>(a: Bucket<O>, b: Bucket<O>)
    requires forall o :: At(a, o).bytes == At(b, o).bytes
    ensures TotalBytes(a) == TotalBytes(b)
    decreases |a|
  {
    if |a| != 0 {
      var o := Any(a);
      TotalRemove(a, o);
      TotalRemove(b, o);
      assert At(a, o).bytes == At(b, o).bytes;
      forall p ensures At(a - {o}, p).bytes == At(b - {o}, p).bytes {
        AtRemoved(a, o, p);
        AtRemoved(b, o, p);
      }
      SameBytesSameCapacity(a - {o}, b - {o});
    } else {
      forall o ensures At(b, o).bytes == 0 {
        assert At(a, o).bytes == At(b, o).bytes;
      }
      NoBytesNoTotal(b);
    }
  }
}
