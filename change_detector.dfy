/**
 * The change detector behind `Config::check_file_changes`: one scan of a directory
 * listing against a cache of name -> signature, adopting a baseline for names it has
 * not seen and stopping at the first name whose signature moved.
 */
module ChangeDetector {

  /** A directory entry's file name. */
  type Name = string

  /** A modification signature: the modification time in whole seconds, or the length in
      bytes when the platform has no modification time. Opaque to the detector. */
  type Signature = nat

  datatype Entry = Entry(name: Name, signature: Signature)

  /** One level of a directory, in the order the directory enumeration yields it. */
  type Listing = seq<Entry>

  type Cache = map<Name, Signature>

  /** What one scan reports and the cache it leaves behind. */
  datatype ScanResult = ScanResult(changed: bool, cache: Cache)

  /** The private cache of the file-change monitor, updated in place by each scan. */
  class SignatureCache {
    var entries: Cache

    /** The monitor's cache starts empty. */
    constructor ()
      ensures entries == map[]
    {
      entries := map[];
    }
  }

  /** One step of a scan: the first entry decides whether the scan stops there. */
  lemma ScanStep(listing: Listing, cache: Cache)
    requires listing != []
    ensures var e := listing[0];
      Scan(listing, cache) ==
        if Mismatch(e, cache) then ScanResult(true, cache[e.name := e.signature])
        else Scan(listing[1..], cache[e.name := e.signature])
  {
  }

  /** One step of adopting a baseline: the first entry's signature is written first. */
  lemma AdoptStep(listing: Listing, cache: Cache)
    requires listing != []
    ensures Adopt(listing, cache) == Adopt(listing[1..], cache[listing[0].name := listing[0].signature])
  {
  }

  function Names(listing: Listing): set<Name>
  {
    if listing == [] then {} else {listing[0].name} + Names(listing[1..])
  }

  /** Entries of a directory listing have pairwise distinct names. */
  predicate DistinctNames(listing: Listing)
  {
    forall i, j :: 0 <= i < j < |listing| ==> listing[i].name != listing[j].name
  }

  /** The cache already holds a signature for this entry's name, and it is a different one. */
  predicate Mismatch(e: Entry, cache: Cache)
  {
    e.name in cache && cache[e.name] != e.signature
  }

  /** The cache holds exactly this entry's signature for its name. */
  predicate Current(e: Entry, cache: Cache)
  {
    e.name in cache && cache[e.name] == e.signature
  }

  /** One scan, entry by entry: every entry's signature is written into the cache (an
      insertion for a new name, a no-op for an unchanged one), and the scan ends with a
      report of change at the first entry whose cached signature differed. */
  function Scan(listing: Listing, cache: Cache): (r: ScanResult)
    ensures cache.Keys <= r.cache.Keys <= cache.Keys + Names(listing)
  {
    if listing == [] then ScanResult(false, cache)
    else
      var e := listing[0];
      if Mismatch(e, cache) then ScanResult(true, cache[e.name := e.signature])
      else
        Scan(listing[1..], cache[e.name := e.signature])
  }

  /** Every listed signature written into the cache, in listing order, with no comparison:
      the baseline a scan adopts. */
  function Adopt(listing: Listing, cache: Cache): (r: Cache)
    ensures r.Keys == cache.Keys + Names(listing)
    ensures forall n :: n in cache && n !in Names(listing) ==> r[n] == cache[n]
  {
    if listing == [] then cache
    else Adopt(listing[1..], cache[listing[0].name := listing[0].signature])
  }

  /** With distinct names, the baseline maps every listed name to its listed signature. */
  lemma {:induction false} AdoptMapsListedNames(listing: Listing, cache: Cache)
    requires DistinctNames(listing)
    ensures forall i :: 0 <= i < |listing| ==>
      listing[i].name in Adopt(listing, cache) && Adopt(listing, cache)[listing[i].name] == listing[i].signature
  {
    if listing != [] {
      var e := listing[0];
      var rest := listing[1..];
      HeadNameNotInRest(listing);
      AdoptMapsListedNames(rest, cache[e.name := e.signature]);
      forall i | 0 < i < |listing|
        ensures listing[i].name in Adopt(listing, cache) && Adopt(listing, cache)[listing[i].name] == listing[i].signature
      {
        assert listing[i] == rest[i - 1];
      }
    }
  }

  /** A name is among a listing's names exactly when some entry carries it. */
  lemma {:induction false} InNames(listing: Listing, n: Name)
    ensures n in Names(listing) <==> exists i :: 0 <= i < |listing| && listing[i].name == n
  {
    if listing != [] {
      InNames(listing[1..], n);
      if exists i :: 0 <= i < |listing| && listing[i].name == n {
        var i :| 0 <= i < |listing| && listing[i].name == n;
        if i > 0 {
          assert listing[1..][i - 1].name == n;
        }
      }
    }
  }

  lemma HeadNameNotInRest(listing: Listing)
    requires listing != [] && DistinctNames(listing)
    ensures listing[0].name !in Names(listing[1..])
    ensures DistinctNames(listing[1..])
  {
    InNames(listing[1..], listing[0].name);
    forall i | 0 <= i < |listing[1..]| ensures listing[1..][i].name != listing[0].name {
      assert listing[1..][i] == listing[i + 1];
    }
  }

  /** A scan that reports no change has adopted the whole listing as its baseline. */
  lemma {:induction false} ScanUnchangedAdoptsAll(listing: Listing, cache: Cache)
    ensures !Scan(listing, cache).changed ==> Scan(listing, cache).cache == Adopt(listing, cache)
  {
    if listing != [] {
      var e := listing[0];
      ScanUnchangedAdoptsAll(listing[1..], cache[e.name := e.signature]);
    }
  }

  /** A scan that reports no change only adds names: every signature already cached is kept. */
  lemma {:induction false} ScanUnchangedExtends(listing: Listing, cache: Cache)
    ensures !Scan(listing, cache).changed ==>
      forall n :: n in cache ==> n in Scan(listing, cache).cache && Scan(listing, cache).cache[n] == cache[n]
  {
    if listing != [] && !Mismatch(listing[0], cache) {
      var e := listing[0];
      ScanUnchangedExtends(listing[1..], cache[e.name := e.signature]);
    }
  }

  /** After a scan that reports no change, every listed name maps to its current signature. */
  lemma {:induction false} ScanUnchangedAllCurrent(listing: Listing, cache: Cache)
    ensures !Scan(listing, cache).changed ==>
      forall i :: 0 <= i < |listing| ==> Current(listing[i], Scan(listing, cache).cache)
  {
    if listing != [] && !Scan(listing, cache).changed {
      var e := listing[0];
      var next := cache[e.name := e.signature];
      ScanUnchangedAllCurrent(listing[1..], next);
      ScanUnchangedExtends(listing[1..], next);
      forall i | 0 <= i < |listing| ensures Current(listing[i], Scan(listing, cache).cache) {
        if i > 0 {
          assert listing[i] == listing[1..][i - 1];
        } else {
          assert Current(e, next);
          assert Scan(listing, cache) == Scan(listing[1..], next);
        }
      }
    }
  }

  /** Entries that are already current are passed over without any effect. */
  lemma {:induction false} ScanSkipsCurrentPrefix(listing: Listing, cache: Cache, k: nat)
    requires k <= |listing|
    requires forall j :: 0 <= j < k ==> Current(listing[j], cache)
    ensures Scan(listing, cache) == Scan(listing[k..], cache)
  {
    if k > 0 {
      var e := listing[0];
      assert cache[e.name := e.signature] == cache;
      assert listing[1..][k - 1..] == listing[k..];
      ScanSkipsCurrentPrefix(listing[1..], cache, k - 1);
    }
  }

  /** A listing whose every entry is current scans as "no change" and leaves the cache as is. */
  lemma {:induction false} QuietScanIsIdentity(listing: Listing, cache: Cache)
    requires forall i :: 0 <= i < |listing| ==> Current(listing[i], cache)
    ensures Scan(listing, cache) == ScanResult(false, cache)
  {
    ScanSkipsCurrentPrefix(listing, cache, |listing|);
  }

  /** An immediate rescan of a listing that reported no change reports no change again
      and leaves the cache untouched. */
  lemma RescanUnchanged(listing: Listing, cache: Cache)
    ensures var first := Scan(listing, cache);
      !first.changed ==> Scan(listing, first.cache) == ScanResult(false, first.cache)
  {
    var first := Scan(listing, cache);
    if !first.changed {
      ScanUnchangedAllCurrent(listing, cache);
      QuietScanIsIdentity(listing, first.cache);
    }
  }

  /** With distinct names, a scan reports a change exactly when some listed name already
      had a cached signature different from its current one. */
  lemma {:induction false} ScanChangedIff(listing: Listing, cache: Cache)
    requires DistinctNames(listing)
    ensures Scan(listing, cache).changed <==> exists i :: 0 <= i < |listing| && Mismatch(listing[i], cache)
  {
    if listing != [] && !Mismatch(listing[0], cache) {
      var e := listing[0];
      var rest := listing[1..];
      var next := cache[e.name := e.signature];
      HeadNameNotInRest(listing);
      ScanChangedIff(rest, next);
      forall i | 0 <= i < |rest| ensures Mismatch(rest[i], next) <==> Mismatch(listing[i + 1], cache) {
        assert rest[i] == listing[i + 1];
        assert rest[i].name != e.name;
      }
      if exists i :: 0 <= i < |listing| && Mismatch(listing[i], cache) {
        var i :| 0 <= i < |listing| && Mismatch(listing[i], cache);
        assert Mismatch(rest[i - 1], next);
      }
    }
  }

  /** The first scan against the monitor's empty cache only seeds the baseline: it never
      reports a change. */
  lemma FirstScanOnlySeeds(listing: Listing)
    requires DistinctNames(listing)
    ensures Scan(listing, map[]) == ScanResult(false, Adopt(listing, map[]))
  {
    ScanChangedIff(listing, map[]);
    ScanUnchangedAdoptsAll(listing, map[]);
  }

  /** The scan stops at the first mismatch: it reports a change, and the cache then holds
      the listing up to and including that entry and nothing after it. */
  lemma {:induction false} ScanEndsAtFirstMismatch(listing: Listing, cache: Cache, k: nat)
    requires DistinctNames(listing)
    requires k < |listing| && Mismatch(listing[k], cache)
    requires forall j :: 0 <= j < k ==> !Mismatch(listing[j], cache)
    ensures Scan(listing, cache) == ScanResult(true, Adopt(listing[..k + 1], cache))
  {
    var e := listing[0];
    var next := cache[e.name := e.signature];
    var prefix := listing[..k + 1];
    assert Adopt(prefix, cache) == Adopt(prefix[1..], next) by {
      assert prefix[0] == e;
      AdoptStep(prefix, cache);
    }
    if k == 0 {
      assert Scan(listing, cache) == ScanResult(true, next) by {
        ScanStep(listing, cache);
      }
      assert prefix[1..] == [];
    } else {
      var rest := listing[1..];
      assert Scan(listing, cache) == Scan(rest, next) by {
        ScanStep(listing, cache);
      }
      assert Scan(rest, next) == ScanResult(true, Adopt(rest[..k], next)) by {
        MismatchesAfterHead(listing, cache, k);
        ScanEndsAtFirstMismatch(rest, next, k - 1);
      }
      assert prefix[1..] == rest[..k];
    }
  }

  /** Writing the first entry's signature does not change which later entries mismatch. */
  lemma MismatchesAfterHead(listing: Listing, cache: Cache, k: nat)
    requires DistinctNames(listing)
    requires 0 < k < |listing| && Mismatch(listing[k], cache)
    requires forall j :: 0 <= j < k ==> !Mismatch(listing[j], cache)
    ensures var next := cache[listing[0].name := listing[0].signature];
      && DistinctNames(listing[1..])
      && Mismatch(listing[1..][k - 1], next)
      && forall j :: 0 <= j < k - 1 ==> !Mismatch(listing[1..][j], next)
  {
  }

  /** Entries after the first mismatch are not scanned: their names keep exactly the
      cache entries (or the absence of one) they had before the scan. */
  lemma ScanLeavesLaterEntriesUntouched(listing: Listing, cache: Cache, k: nat, j: nat)
    requires DistinctNames(listing)
    requires k < |listing| && Mismatch(listing[k], cache)
    requires forall i :: 0 <= i < k ==> !Mismatch(listing[i], cache)
    requires k < j < |listing|
    ensures listing[j].name in Scan(listing, cache).cache <==> listing[j].name in cache
    ensures listing[j].name in cache ==>
      Scan(listing, cache).cache[listing[j].name] == cache[listing[j].name]
  {
    ScanEndsAtFirstMismatch(listing, cache, k);
    var prefix := listing[..k + 1];
    InNames(prefix, listing[j].name);
    forall m | 0 <= m < |prefix| ensures prefix[m].name != listing[j].name {
      assert prefix[m] == listing[m];
    }
  }

  /** A single file whose signature moves, in a directory whose cache has settled, is
      reported exactly once: the next scan reports no change again. */
  lemma SingleChangeReportedOnce(listing: Listing, cache: Cache, k: nat, moved: Signature)
    requires DistinctNames(listing)
    requires forall i :: 0 <= i < |listing| ==> Current(listing[i], cache)
    requires k < |listing| && moved != listing[k].signature
    ensures var after := listing[k := Entry(listing[k].name, moved)];
      var updated := cache[listing[k].name := moved];
      Scan(after, cache) == ScanResult(true, updated) &&
      Scan(after, updated) == ScanResult(false, updated)
  {
    var n := listing[k].name;
    var after := listing[k := Entry(n, moved)];
    var updated := cache[n := moved];
    forall j | 0 <= j < k ensures Current(after[j], cache) {
      assert after[j] == listing[j];
    }
    ScanSkipsCurrentPrefix(after, cache, k);
    assert after[k..][0] == Entry(n, moved);
    forall i | 0 <= i < |after| ensures Current(after[i], updated) {
      if i != k {
        assert after[i] == listing[i];
        assert listing[i].name != n;
      }
    }
    QuietScanIsIdentity(after, updated);
  }
}
