/** The on-disk response cache (class FileCache). The directory tree under
    `basepath` is modelled as a map from file path to file contents; directory
    creation (os.makedirs) is implicit in the map. */
module Cache {
  import opened Wrappers
  import opened Dates
  import opened CacheKey

  newtype byte = b: int | 0 <= b < 256
  type Bytes = seq<byte>

  class FileCache {
    /** The cache directory every key is joined to. */
    const basepath: string
    /** The files present on disk, by path. */
    var files: map<string, Bytes>

    /** A cache over a directory that already holds `disk`. */
    constructor (basepath: string, disk: map<string, Bytes>)
      ensures this.basepath == basepath && files == disk
    {
      this.basepath := basepath;
      files := disk;
    }

    /** os.path.exists on the derived path. */
    method Exists(path: string, today: Date) returns (present: bool)
      ensures present <==> MakePath(basepath, path, today) in files
    {
      present := MakePath(basepath, path, today) in files;
    }

    /** Reads the whole file at the derived path; None stands for the
        OSError open() raises when it is missing. */
    method Retrieve(path: string, today: Date) returns (data: Option<Bytes>)
      ensures var key := MakePath(basepath, path, today);
              if key in files then data == Some(files[key]) else data == None
    {
      var key := MakePath(basepath, path, today);
      if key in files {
        data := Some(files[key]);
      } else {
        data := None;
      }
    }

    /** Writes `data` at the derived path, replacing any earlier file there,
        and returns the number of bytes written. */
    method Store(path: string, today: Date, data: Bytes) returns (written: nat)
      modifies this
      ensures files == old(files)[MakePath(basepath, path, today) := data]
      ensures written == |data|
    {
      files := files[MakePath(basepath, path, today) := data];
      written := |data|;
    }

    /** After a store, the same path on the same day exists and reads back
        exactly the stored bytes, and every other file is untouched. */
    method StoreThenRetrieve(path: string, today: Date, data: Bytes) returns (present: bool, back: Option<Bytes>)
      modifies this
      ensures present && back == Some(data)
      ensures forall k :: k in old(files) && k != MakePath(basepath, path, today) ==> k in files && files[k] == old(files)[k]
    {
      var _ := Store(path, today, data);
      present := Exists(path, today);
      back := Retrieve(path, today);
    }
  }
}
