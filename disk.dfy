/**
 * The part of the file system the optimizer touches: regular files with
 * their contents and the set of existing directories, and the os/shutil
 * operations it calls on them.
 */
module Disk {
  import opened Paths

  type Bytes = seq<bv8>

  /** What is on disk at one moment. */
  datatype Snapshot = Snapshot(files: map<Path, Bytes>, dirs: set<Path>)

  /** os.path.exists */
  predicate Exists(s: Snapshot, p: Path) {
    p in s.files || p in s.dirs
  }

  /** `p` has the same presence and contents in both file maps. */
  predicate SameAt(m: map<Path, Bytes>, n: map<Path, Bytes>, p: Path) {
    (p in m <==> p in n) && (p in m ==> m[p] == n[p])
  }

  /** Writing one path leaves every other path as it was. */
  lemma WriteElsewhere(m: map<Path, Bytes>, q: Path, data: Bytes, p: Path)
    requires p != q
    ensures SameAt(m, m[q := data], p)
  {
  }

  /** The disk after shutil.rmtree(d): `d` and everything inside it are gone. */
  function RemoveTree(s: Snapshot, d: Path): (r: Snapshot)
    ensures forall q :: q in r.dirs <==> q in s.dirs && q != d && !Under(q, d)
    ensures forall p :: p in r.files <==> p in s.files && !Under(p, d)
    ensures forall p :: p in r.files ==> r.files[p] == s.files[p]
  {
    Snapshot(map p | p in s.files && !Under(p, d) :: s.files[p],
             set p | p in s.dirs && p != d && !Under(p, d))
  }

  /** The file system, changed in place by the operations below. */
  class FileSystem {
    var files: map<Path, Bytes>
    var dirs: set<Path>

    function State(): Snapshot
      reads this
    {
      Snapshot(files, dirs)
    }

    constructor (initial: Snapshot)
      ensures State() == initial
    {
      files := initial.files;
      dirs := initial.dirs;
    }

    /** os.path.exists */
    function PathExists(p: Path): bool
      reads this
    {
      Exists(State(), p)
    }

    /** os.path.isfile */
    function IsFile(p: Path): bool
      reads this
    {
      p in files
    }

    /** The contents of a regular file. */
    function Read(p: Path): Bytes
      reads this
      requires p in files
    {
      files[p]
    }

    /** os.makedirs */
    method MakeDirs(d: Path)
      modifies this
      ensures files == old(files) && dirs == old(dirs) + {d}
    {
      dirs := dirs + {d};
    }

    /** Writing a whole file, replacing what was there. */
    method Write(p: Path, data: Bytes)
      modifies this
      ensures files == old(files)[p := data] && dirs == old(dirs)
    {
      files := files[p := data];
    }

    /** shutil.copy2: the destination gets the source's bytes. */
    method Copy2(src: Path, dst: Path)
      requires src in files
      modifies this
      ensures files == old(files)[dst := old(files)[src]] && dirs == old(dirs)
    {
      files := files[dst := files[src]];
    }

    /** os.remove */
    method Remove(p: Path)
      modifies this
      ensures files == old(files) - {p} && dirs == old(dirs)
    {
      files := files - {p};
    }

    /** shutil.rmtree */
    method RmTree(d: Path)
      modifies this
      ensures State() == RemoveTree(old(State()), d)
    {
      var s := RemoveTree(State(), d);
      files, dirs := s.files, s.dirs;
    }
  }
}
