/** Scan entries and snapshots ("crawls"): the values every other part of the
    crawler builds, deduplicates and compares. */
module Entries {

  datatype Option<T> = None | Some(value: T)

  /** Rust's `u64`, the type of an entry's size in octets. */
  newtype u64 = x: int | 0 <= x < 0x1_0000_0000_0000_0000

  /** Rust's `u32`, the type of the tool revision stamped into a crawl. */
  newtype u32 = x: int | 0 <= x < 0x1_0000_0000

  /** The revision written into every crawl this version of the tool records. */
  const ToolRevision: u32 := 1

  datatype EntryType = File | Directory | Unknown

  /** One child of a scanned directory. Datatype equality is field-wise,
      exactly the derived `PartialEq` on the triple (type, path, octets). */
  datatype EntryInfo = EntryInfo(entryType: EntryType, path: string, octets: u64)

  /** The tuple fed to the hasher, field by field in declaration order. */
  function HashKey(e: EntryInfo): (EntryType, string, u64)
  {
    (e.entryType, e.path, e.octets)
  }

  /** Hashing agrees with equality, in both directions: two entries hash the
      same key iff they are the same entry, so a set of entries deduplicates by
      the whole triple. */
  lemma HashKeyIdentifies(a: EntryInfo, b: EntryInfo)
    ensures HashKey(a) == HashKey(b) <==> a == b
  {
  }

  /** The same path seen with two different sizes gives two distinct set
      members; only an identical triple collapses. */
  lemma SizeIsPartOfIdentity(a: EntryInfo, b: EntryInfo)
    requires a.entryType == b.entryType && a.path == b.path
    ensures |{a, b}| == if a.octets == b.octets then 1 else 2
  {
  }

  /** A recorded snapshot. `entryCount` is the size of `entries` as recorded
      (`usize`, modelled unbounded). */
  datatype Crawl = Crawl(dateTime: string, usedToolRevision: u32, entryCount: nat, entries: set<EntryInfo>)

  /** The hand-written `PartialEq for Crawl`: the date is informational only. */
  predicate CrawlEq(a: Crawl, b: Crawl)
  {
    a.usedToolRevision == b.usedToolRevision
    && a.entryCount == b.entryCount
    && a.entries == b.entries
  }

  /** Crawl equality is structural equality once the dates are made equal:
      it ignores `dateTime` and nothing else. */
  lemma CrawlEqIgnoresDateTime(a: Crawl, b: Crawl)
    ensures CrawlEq(a, b) <==> a.(dateTime := b.dateTime) == b
  {
  }

  /** Crawl equality is an equivalence relation, as `Eq` requires. */
  lemma CrawlEqIsEquivalence(a: Crawl, b: Crawl, c: Crawl)
    ensures CrawlEq(a, a)
    ensures CrawlEq(a, b) ==> CrawlEq(b, a)
    ensures CrawlEq(a, b) && CrawlEq(b, c) ==> CrawlEq(a, c)
  {
  }

  /** Whether a size field is left out of the persisted form. */
  predicate OctetsIsZero(diff: u64)
  {
    diff == 0
  }
}
