/**
 * The simple storage: an index from bundle ids to the bundles it holds, and the
 * volatile store built on it, which keeps every bundle in memory.
 */
module Storages {
  import opened Wrappers
  import opened Bundles
  import Tags
  import BlobFactories

  /** An indexed bundle, with what the storage attached to it (None for null). */
  datatype IndexEntry<T> = IndexEntry(bundle: Bundle, attached: Option<T>)

  class StorageIndex<T> {
    var index: map<BundleId, IndexEntry<T>>

    constructor()
      ensures index == map[]
    {
      index := map[];
    }

    method Teardown()
      modifies this
      ensures index == map[] && Size() == 0
    {
      index := map[];
    }

    /** put(bid, bundle): stores or replaces the entry and tags the bundle "in_storage". */
    method Put(bid: BundleId, bundle: Bundle) returns (r: Bundle)
      modifies this, bundle.tags
      ensures r == bundle && index == old(index)[bid := IndexEntry(bundle, None)]
      ensures bundle.tags.attachment == Tags.Attach(old(bundle.tags.attachment), IN_STORAGE, None)
      ensures Contains(bid) && PullBundle(bid) == Some(bundle) && bundle.tags.IsTagged(IN_STORAGE)
    {
      index := index[bid := IndexEntry(bundle, None)];
      bundle.tags.Tag(IN_STORAGE);
      return bundle;
    }

    /** put(bid, bundle, attached). */
    method PutAttached(bid: BundleId, bundle: Bundle, attached: T) returns (r: Bundle)
      modifies this, bundle.tags
      ensures r == bundle && index == old(index)[bid := IndexEntry(bundle, Some(attached))]
      ensures bundle.tags.attachment == Tags.Attach(old(bundle.tags.attachment), IN_STORAGE, None)
      ensures PullEntry(bid) == Some(IndexEntry(bundle, Some(attached))) && bundle.tags.IsTagged(IN_STORAGE)
    {
      index := index[bid := IndexEntry(bundle, Some(attached))];
      bundle.tags.Tag(IN_STORAGE);
      return bundle;
    }

    /** pullBundle(bid): null exactly when the bid is not indexed. */
    function PullBundle(bid: BundleId): (r: Option<Bundle>)
      reads this
      ensures r.None? <==> !Contains(bid)
      ensures r.Some? ==> r.value == index[bid].bundle
    {
      if bid !in index then None else Some(index[bid].bundle)
    }

    /** pullEntry(bid): null exactly when the bid is not indexed. */
    function PullEntry(bid: BundleId): (r: Option<IndexEntry<T>>)
      reads this
      ensures r.None? <==> !Contains(bid)
      ensures r.Some? ==> r.value == index[bid]
    {
      if bid !in index then None else Some(index[bid])
    }

    method Remove(bid: BundleId)
      modifies this
      ensures index == old(index) - {bid}
      ensures !Contains(bid) && forall other :: other != bid ==> Contains(other) == old(Contains(other))
    {
      index := index - {bid};
    }

    function Size(): (n: nat)
      reads this
      ensures n == |AllBid()|
    {
      |index|
    }

    predicate Contains(bid: BundleId)
      reads this
    {
      bid in index
    }

    function AllBid(): (s: set<BundleId>)
      reads this
      ensures forall bid :: bid in s <==> Contains(bid)
    {
      index.Keys
    }
  }

  /** The exceptions of StorageApi. */
  datatype StorageError = StorageUnavailable | BundleAlreadyExists | BundleNotFound

  /** Which storage create picks. */
  datatype StorageKind = FileStorage(path: string) | VolatileStorageKind

  /**
   * create: a file storage only when the configured path is set, is not
   * "@DISABLED" and names a writable directory (`writableDirectory` is what the
   * file system answers for it); a volatile storage otherwise.
   */
  function Create(path: Option<string>, writableDirectory: bool): (r: StorageKind)
    ensures r == VolatileStorageKind <==> path.None? || path.value == "@DISABLED" || !writableDirectory
    ensures r.FileStorage? ==> path == Some(r.path)
  {
    if path.Some? && path.value != "@DISABLED" && writableDirectory then FileStorage(path.value)
    else VolatileStorageKind
  }

  /** The blob factory a storage hands out: a factory of null blobs while it is disabled. */
  datatype BlobFactoryChoice = NullBlobFactory | Base(factory: BlobFactories.BaseBlobFactory)

  /**
   * The volatile storage, with the members it inherits from SimpleStorage: the
   * index, the blob factory and the enable flag.
   */
  class VolatileStorage {
    var enabled: bool
    const index: StorageIndex<()>
    const blobFactory: BlobFactories.BaseBlobFactory

    /** The storage's blob factory allows volatile blobs up to the configured size. */
    constructor(enabled: bool, volatileMaxSize: int)
      ensures this.enabled == enabled && fresh(index) && fresh(blobFactory)
      ensures index.index == map[] && blobFactory.volatileMaxSize == volatileMaxSize
      ensures blobFactory.IsVolatileEnabled() <==> volatileMaxSize > 0
    {
      this.enabled := enabled;
      index := new StorageIndex();
      var factory := new BlobFactories.BaseBlobFactory();
      factory.SetVolatileMaxSize(volatileMaxSize);
      blobFactory := factory;
    }

    function GetBlobFactory(): (r: BlobFactoryChoice)
      reads this
      ensures r.NullBlobFactory? <==> !enabled
      ensures r.Base? ==> r.factory == blobFactory
    {
      if !enabled then NullBlobFactory else Base(blobFactory)
    }

    /** componentDown: the index is emptied. */
    method ComponentDown()
      modifies index
      ensures index.index == map[]
    {
      index.Teardown();
    }

    /** count: 0 while disabled, the number of indexed bundles otherwise. */
    function Count(): (n: nat)
      reads this, index
      ensures !enabled ==> n == 0
      ensures enabled ==> n == |index.AllBid()|
    {
      if !enabled then 0 else index.Size()
    }

    function Contains(bid: BundleId): (r: Result<bool, StorageError>)
      reads this, index
      ensures r.Err? <==> !enabled
      ensures r.Err? ==> r.error == StorageUnavailable
      ensures r.Ok? ==> (r.value <==> bid in index.AllBid())
    {
      if !enabled then Err(StorageUnavailable) else Ok(index.Contains(bid))
    }

    /** store(bundle): refused while disabled or when the bid is already indexed. */
    method Store(bundle: Bundle) returns (r: Result<(), StorageError>)
      modifies index, bundle.tags
      ensures !enabled ==> r == Err(StorageUnavailable)
      ensures enabled && bundle.bid in old(index.index) ==> r == Err(BundleAlreadyExists)
      ensures r.Err? ==> index.index == old(index.index) && bundle.tags.attachment == old(bundle.tags.attachment)
      ensures r.Ok? <==> enabled && bundle.bid !in old(index.index)
      ensures r.Ok? ==> index.index == old(index.index)[bundle.bid := IndexEntry(bundle, None)]
      ensures r.Ok? ==> bundle.tags.attachment == Tags.Attach(old(bundle.tags.attachment), IN_STORAGE, None)
      ensures r.Ok? ==> Count() == old(Count()) + 1 && Contains(bundle.bid) == Ok(true)
    {
      if !enabled {
        return Err(StorageUnavailable);
      }
      if index.Contains(bundle.bid) {
        return Err(BundleAlreadyExists);
      }
      var _ := index.Put(bundle.bid, bundle);
      return Ok(());
    }

    /**
     * get(bid) as written: an absent bid is reported with BundleAlreadyExistsException,
     * the exception store uses for the opposite situation.
     */
    function GetAsWritten(bid: BundleId): (r: Result<Bundle, StorageError>)
      reads this, index
      ensures r.Ok? <==> enabled && bid in index.index
      ensures r.Ok? ==> r.value == index.index[bid].bundle
      ensures r.Err? ==> r.error == if enabled then BundleAlreadyExists else StorageUnavailable
    {
      if !enabled then Err(StorageUnavailable)
      else if !index.Contains(bid) then Err(BundleAlreadyExists)
      else Ok(index.PullBundle(bid).value)
    }

    /** get(bid) with the exception the storage interface provides for a missing bundle. */
    function Get(bid: BundleId): (r: Result<Bundle, StorageError>)
      reads this, index
      ensures r.Ok? <==> enabled && bid in index.index
      ensures r.Ok? ==> r.value == index.index[bid].bundle
      ensures r.Err? ==> r.error == if enabled then BundleNotFound else StorageUnavailable
    {
      if !enabled then Err(StorageUnavailable)
      else if !index.Contains(bid) then Err(BundleNotFound)
      else Ok(index.PullBundle(bid).value)
    }

    /** remove(bid): completes whether or not the bid was there, enabled or not. */
    method Remove(bid: BundleId)
      modifies index
      ensures index.index == old(index.index) - {bid}
    {
      index.Remove(bid);
    }

    /** clear: every bid indexed when it starts is removed, one at a time. */
    method Clear() returns (r: Result<(), StorageError>)
      modifies index
      ensures !enabled ==> r == Err(StorageUnavailable) && index.index == old(index.index)
      ensures enabled ==> r == Ok(()) && index.index == map[] && Count() == 0
    {
      if !enabled {
        return Err(StorageUnavailable);
      }
      var bids := index.AllBid();
      while bids != {}
        invariant index.index.Keys == bids
        decreases bids
      {
        var bid :| bid in bids;
        Remove(bid);
        bids := bids - {bid};
      }
      return Ok(());
    }
  }

  /**
   * Whatever the index holds, an absent bundle and a stored one make get(bid) and
   * store(bundle) fail with the same exception, so a caller cannot tell a miss from
   * a duplicate.
   */
  lemma GetMissReadsAsDuplicate(s: VolatileStorage, bundle: Bundle, absent: BundleId)
    requires s.enabled && bundle.bid in s.index.index && absent !in s.index.index
    ensures s.GetAsWritten(absent) == Err(BundleAlreadyExists)
    ensures s.Get(absent) == Err(BundleNotFound) && s.Get(bundle.bid) == Ok(s.index.index[bundle.bid].bundle)
  {
  }
}
