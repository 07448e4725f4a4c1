/** The directory enumerator: one directory listing becomes one batch of
    entries. The filesystem answers for each child are inputs. */
module ReadPath {
  import opened Entries

  /** What the filesystem reports about one child of the listing: whether the
      listing yielded it, whether it still exists, the two type tests, its
      path as a string (None when it is not valid UTF-8) and its metadata
      length (None when metadata cannot be read). */
  datatype Child = Child(listOk: bool, stillExists: bool, isFile: bool, isDir: bool,
                         pathStr: Option<string>, size: Option<u64>)

  /** The outcome of opening the directory. */
  datatype Listing = OpenFailed | Opened(children: seq<Child>)

  const InvalidPath: string := "Invalid path"

  /** A child becomes an entry only if it was listed and still exists. */
  predicate Kept(c: Child)
  {
    c.listOk && c.stillExists
  }

  /** Is-file is tested first, then is-dir; anything else is Unknown. */
  function Classify(c: Child): EntryType
  {
    if c.isFile then File else if c.isDir then Directory else Unknown
  }

  /** The entry recorded for a kept child. */
  function ToEntry(c: Child): EntryInfo
  {
    EntryInfo(Classify(c),
              match c.pathStr case Some(p) => p case None => InvalidPath,
              match c.size case Some(n) => n case None => 0)
  }

  /** The classification, path and size fallbacks of a recorded entry. */
  lemma ToEntryFields(c: Child)
    ensures ToEntry(c).entryType == File <==> c.isFile
    ensures ToEntry(c).entryType == Directory <==> !c.isFile && c.isDir
    ensures ToEntry(c).entryType == Unknown <==> !c.isFile && !c.isDir
    ensures ToEntry(c).path == (if c.pathStr.Some? then c.pathStr.value else "Invalid path")
    ensures ToEntry(c).octets == (if c.size.Some? then c.size.value else 0)
  {
  }

  /** The batch a listing's children produce, in listing order. */
  function Batch(children: seq<Child>): seq<EntryInfo>
  {
    if children == [] then []
    else (if Kept(children[0]) then [ToEntry(children[0])] else []) + Batch(children[1..])
  }

  /** The batch of a concatenation is the concatenation of the batches, so
      the batch keeps the listing order. */
  lemma {:induction false} BatchAppend(xs: seq<Child>, ys: seq<Child>)
    ensures Batch(xs + ys) == Batch(xs) + Batch(ys)
  {
    if xs == [] {
      assert xs + ys == ys;
    } else {
      var head := if Kept(xs[0]) then [ToEntry(xs[0])] else [];
      assert (xs + ys)[0] == xs[0];
      assert (xs + ys)[1..] == xs[1..] + ys;
      BatchAppend(xs[1..], ys);
      assert Batch(xs + ys) == head + (Batch(xs[1..]) + Batch(ys));
      assert head + (Batch(xs[1..]) + Batch(ys)) == (head + Batch(xs[1..])) + Batch(ys);
    }
  }

  /** Number of kept children. */
  function KeptCount(children: seq<Child>): nat
  {
    if children == [] then 0 else (if Kept(children[0]) then 1 else 0) + KeptCount(children[1..])
  }

  /** The batch holds exactly the kept children, mapped to entries: one entry
      per kept child, none for the others, never more than there are children. */
  lemma {:induction false} BatchContents(children: seq<Child>)
    ensures |Batch(children)| == KeptCount(children) <= |children|
    ensures forall e :: e in Batch(children) <==> exists i :: 0 <= i < |children| && Kept(children[i]) && e == ToEntry(children[i])
  {
    if children != [] {
      BatchContents(children[1..]);
      forall e | e in Batch(children)
        ensures exists i :: 0 <= i < |children| && Kept(children[i]) && e == ToEntry(children[i])
      {
        if !(Kept(children[0]) && e == ToEntry(children[0])) {
          var i :| 0 <= i < |children[1..]| && Kept(children[1..][i]) && e == ToEntry(children[1..][i]);
          assert children[i + 1] == children[1..][i];
        }
      }
      forall e | exists i :: 0 <= i < |children| && Kept(children[i]) && e == ToEntry(children[i])
        ensures e in Batch(children)
      {
        var i :| 0 <= i < |children| && Kept(children[i]) && e == ToEntry(children[i]);
        if i > 0 {
          assert children[1..][i - 1] == children[i];
        }
      }
    }
  }

  /** One `read_path` call. `sent` is the batch handed to the recorder, or
      None when the directory could not be opened and nothing is sent. */
  method ReadPath(listing: Listing) returns (sent: Option<seq<EntryInfo>>)
    ensures listing.OpenFailed? <==> sent.None?
    ensures listing.Opened? ==> sent == Some(Batch(listing.children))
  {
    if listing.OpenFailed? {
      return None;
    }
    var children := listing.children;
    var entries: seq<EntryInfo> := [];
    var i := 0;
    while i < |children|
      invariant i <= |children|
      invariant entries == Batch(children[..i])
    {
      var c := children[i];
      BatchAppend(children[..i], [c]);
      assert children[..i + 1] == children[..i] + [c];
      if !c.listOk {
        i := i + 1;
        continue;
      }
      if !c.stillExists {
        i := i + 1;
        continue;
      }
      var entryType: EntryType;
      if c.isFile {
        entryType := File;
      } else if c.isDir {
        entryType := Directory;
      } else {
        entryType := Unknown;
      }
      var path := match c.pathStr case Some(p) => p case None => InvalidPath;
      var octets: u64 := match c.size case Some(n) => n case None => 0;
      entries := entries + [EntryInfo(entryType, path, octets)];
      i := i + 1;
    }
    assert children[..i] == children;
    sent := Some(entries);
  }
}
