/**
 * The blob factory: volatile blobs are allowed up to a maximum size, file blobs
 * when a directory is configured, and a request for a blob tries volatile memory
 * first and falls back to a file.
 */
module BlobFactories {
  import opened Wrappers

  /** Which kind of blob a request yields. */
  datatype BlobChoice = VolatileBlob(expectedSize: nat) | FileBlob(directory: string)

  /** The IOException messages of the factory, one per cause. */
  datatype BlobFailure =
    | VolatileNotEnabled        // "volatile storage is not enabled"
    | ExceedsVolatileLimit      // "size exceeds maximum volatile blob limit"
    | PersistentNotEnabled      // "persistent storage not enabled"
    | NotEnoughSpace            // "not enough size left on device"
    | CannotCreateFile          // "could not create file in directory"

  class BaseBlobFactory {
    var volatileMaxSize: int
    /** The directory for file blobs; None stands for Java's null. */
    var blobPath: Option<string>

    /** A new factory enables neither kind. */
    constructor()
      ensures volatileMaxSize == 0 && blobPath == None
      ensures !IsVolatileEnabled() && !IsPersistentEnabled()
    {
      volatileMaxSize, blobPath := 0, None;
    }

    method SetVolatileMaxSize(limit: int)
      modifies this
      ensures volatileMaxSize == limit && blobPath == old(blobPath)
      ensures IsVolatileEnabled() <==> limit > 0
    {
      volatileMaxSize := limit;
    }

    method SetPersistentPath(path: Option<string>)
      modifies this
      ensures blobPath == path && volatileMaxSize == old(volatileMaxSize)
      ensures IsPersistentEnabled() <==> path.Some?
    {
      blobPath := path;
    }

    predicate IsVolatileEnabled()
      reads this
    {
      volatileMaxSize > 0
    }

    predicate IsPersistentEnabled()
      reads this
    {
      blobPath.Some?
    }

    /** createVolatileBlob: refused when disabled, for a negative size or beyond the maximum. */
    function CreateVolatileBlob(expectedSize: int): (r: Result<BlobChoice, BlobFailure>)
      reads this
      ensures r.Ok? <==> IsVolatileEnabled() && 0 <= expectedSize <= volatileMaxSize
      ensures r.Ok? ==> r.value == VolatileBlob(expectedSize)
      ensures r.Err? ==> r.error == (if IsVolatileEnabled() then ExceedsVolatileLimit else VolatileNotEnabled)
    {
      if !IsVolatileEnabled() then Err(VolatileNotEnabled)
      else if expectedSize < 0 || expectedSize > volatileMaxSize then Err(ExceedsVolatileLimit)
      else Ok(VolatileBlob(expectedSize))
    }

    /**
     * createFileBlob: refused when disabled or when the device has less room than
     * asked for. `spaceLeft` is what the file system reports for the directory and
     * `created` whether creating a fresh file there succeeds.
     */
    function CreateFileBlob(expectedSize: int, spaceLeft: int, created: bool): (r: Result<BlobChoice, BlobFailure>)
      reads this
      ensures r.Ok? <==> IsPersistentEnabled() && expectedSize <= spaceLeft && created
      ensures r.Ok? ==> r.value == FileBlob(blobPath.value)
      ensures !IsPersistentEnabled() ==> r == Err(PersistentNotEnabled)
    {
      if !IsPersistentEnabled() then Err(PersistentNotEnabled)
      else if spaceLeft < expectedSize then Err(NotEnoughSpace)
      else if !created then Err(CannotCreateFile)
      else Ok(FileBlob(blobPath.value))
    }

    /** createBlob: a volatile blob whenever one is allowed, otherwise a file blob. */
    function CreateBlob(expectedSize: int, spaceLeft: int, created: bool): (r: Result<BlobChoice, BlobFailure>)
      reads this
      ensures CreateVolatileBlob(expectedSize).Ok? ==> r == CreateVolatileBlob(expectedSize)
      ensures CreateVolatileBlob(expectedSize).Err? ==> r == CreateFileBlob(expectedSize, spaceLeft, created)
    {
      var v := CreateVolatileBlob(expectedSize);
      if v.Ok? then v else CreateFileBlob(expectedSize, spaceLeft, created)
    }
  }

  /**
   * A request fails only when neither kind can serve it, and then with a file-blob
   * cause: the volatile refusal is swallowed.
   */
  lemma CreateBlobFails(f: BaseBlobFactory, expectedSize: int, spaceLeft: int, created: bool)
    ensures var r := f.CreateBlob(expectedSize, spaceLeft, created);
      r.Err? <==> !(f.IsVolatileEnabled() && 0 <= expectedSize <= f.volatileMaxSize) &&
                  !(f.IsPersistentEnabled() && expectedSize <= spaceLeft && created)
    ensures f.CreateBlob(expectedSize, spaceLeft, created).Err? ==>
      f.CreateBlob(expectedSize, spaceLeft, created).error in {PersistentNotEnabled, NotEnoughSpace, CannotCreateFile}
  {
  }
}
