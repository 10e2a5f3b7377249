/** reclean.py: `create_reversed_folder` copies the regular files of a
    folder, taken in reverse string order, as `frame_0.jpg`, `frame_1.jpg`,
    ... where the number is the entry's position in that order; and
    `duplicate_folder` copies the regular files of a folder under their own
    names, in string order. Both are modelled as the list of copies they
    make. */
module Reclean {
  import opened Common
  import opened Listing

  /** The copies `create_reversed_folder` makes for the first `n` entries of
      `sorted(os.listdir(source), reverse=True)`: entry `i`, when it is a
      regular file, goes to `frame_{i}.jpg` in the destination. */
  function ReversedCopies(fs: FileSystem, source: string, destination: string, n: nat): seq<Copy>
    requires n <= |fs.listdir(source)|
  {
    if n == 0 then []
    else
      var src := Path(source, SortDesc(fs.listdir(source))[n - 1]);
      ReversedCopies(fs, source, destination, n - 1)
        + (if fs.isFile(src) then [Copy(src, Path(destination, FrameFileName(n - 1)))] else [])
  }

  /** `create_reversed_folder(source_folder, destination_folder)`. */
  method CreateReversedFolder(fs: FileSystem, source: string, destination: string) returns (copies: seq<Copy>)
    ensures copies == ReversedCopies(fs, source, destination, |fs.listdir(source)|)
  {
    var files := SortDesc(fs.listdir(source));
    copies := [];
    for i := 0 to |files|
      invariant copies == ReversedCopies(fs, source, destination, i)
    {
      var filePath := Path(source, files[i]);
      if fs.isFile(filePath) {
        copies := copies + [Copy(filePath, Path(destination, FrameFileName(i)))];
      }
    }
  }

  /** The copy made for entry `i` of the reverse-sorted listing. */
  predicate ReversedCopyOf(fs: FileSystem, source: string, destination: string, i: nat, c: Copy)
    requires i < |fs.listdir(source)|
  {
    var src := Path(source, SortDesc(fs.listdir(source))[i]);
    fs.isFile(src) && c == Copy(src, Path(destination, FrameFileName(i)))
  }

  /** A copy is made exactly for each regular file among the first `n`
      entries, from that entry to `frame_{i}.jpg`, whatever its own name. */
  lemma {:induction false} ReversedMembers(fs: FileSystem, source: string, destination: string, n: nat, c: Copy)
    requires n <= |fs.listdir(source)|
    ensures c in ReversedCopies(fs, source, destination, n)
            <==> exists i :: 0 <= i < n && ReversedCopyOf(fs, source, destination, i, c)
  {
    if n > 0 {
      ReversedMembers(fs, source, destination, n - 1, c);
      var before := ReversedCopies(fs, source, destination, n - 1);
      if c in ReversedCopies(fs, source, destination, n) && c !in before {
        assert ReversedCopyOf(fs, source, destination, n - 1, c);
      }
      if ReversedCopyOf(fs, source, destination, n - 1, c) {
        assert c in ReversedCopies(fs, source, destination, n);
      }
    }
  }

  /** `frame_{i}.jpg` is written exactly when entry `i` is a regular file,
      so a skipped entry leaves a gap in the numbering. */
  lemma ReversedDestinations(fs: FileSystem, source: string, destination: string, i: nat)
    requires i < |fs.listdir(source)|
    ensures (exists c :: c in ReversedCopies(fs, source, destination, |fs.listdir(source)|)
                         && c.dst == Path(destination, FrameFileName(i)))
            <==> fs.isFile(Path(source, SortDesc(fs.listdir(source))[i]))
  {
    var n := |fs.listdir(source)|;
    var files := SortDesc(fs.listdir(source));
    var src := Path(source, files[i]);
    if fs.isFile(src) {
      var c := Copy(src, Path(destination, FrameFileName(i)));
      ReversedMembers(fs, source, destination, n, c);
      assert ReversedCopyOf(fs, source, destination, i, c);
      assert c in ReversedCopies(fs, source, destination, n);
    } else {
      forall c | c in ReversedCopies(fs, source, destination, n)
        ensures c.dst != Path(destination, FrameFileName(i))
      {
        ReversedMembers(fs, source, destination, n, c);
        var j :| 0 <= j < n && ReversedCopyOf(fs, source, destination, j, c);
        FrameFileNameInjective(i, j);
      }
    }
  }

  predicate DestinationsDistinct(copies: seq<Copy>)
  {
    forall a, b :: 0 <= a < b < |copies| ==> copies[a].dst != copies[b].dst
  }

  /** No two copies go to the same destination. */
  lemma {:induction false} ReversedDestinationsDistinct(fs: FileSystem, source: string, destination: string, n: nat)
    requires n <= |fs.listdir(source)|
    ensures DestinationsDistinct(ReversedCopies(fs, source, destination, n))
  {
    if n > 0 {
      ReversedDestinationsDistinct(fs, source, destination, n - 1);
      var before := ReversedCopies(fs, source, destination, n - 1);
      var copies := ReversedCopies(fs, source, destination, n);
      forall a, b | 0 <= a < b < |copies| ensures copies[a].dst != copies[b].dst {
        assert copies[a] == before[a];
        if b < |before| {
          assert copies[b] == before[b];
        } else {
          assert copies[b].dst == Path(destination, FrameFileName(n - 1));
          EarlierDestination(fs, source, destination, n - 1, before[a]);
        }
      }
    }
  }

  /** A copy made for the first `n` entries never goes to `frame_{n}.jpg`. */
  lemma EarlierDestination(fs: FileSystem, source: string, destination: string, n: nat, c: Copy)
    requires n <= |fs.listdir(source)|
    requires c in ReversedCopies(fs, source, destination, n)
    ensures c.dst != Path(destination, FrameFileName(n))
  {
    ReversedMembers(fs, source, destination, n, c);
    var j :| 0 <= j < n && ReversedCopyOf(fs, source, destination, j, c);
    FrameFileNameInjective(j, n);
  }

  /** Reverse order is string order: of `frame_10.jpg` and `frame_2.jpg`,
      `frame_2.jpg` becomes `frame_0.jpg`. */
  lemma ReversedRenumbersTextually(fs: FileSystem, source: string, destination: string)
    requires fs.listdir(source) == ["frame_10.jpg", "frame_2.jpg"]
    requires fs.isFile(Path(source, "frame_10.jpg")) && fs.isFile(Path(source, "frame_2.jpg"))
    ensures ReversedCopies(fs, source, destination, 2)
            == [Copy(Path(source, "frame_2.jpg"), Path(destination, "frame_0.jpg")),
                Copy(Path(source, "frame_10.jpg"), Path(destination, "frame_1.jpg"))]
  {
    ReverseOrderIsTextual();
    var files := SortDesc(fs.listdir(source));
    assert files[0] == "frame_2.jpg" && files[1] == "frame_10.jpg";
    FirstFrameNames();
    ReversedTwoFiles(fs, source, destination);
  }

  lemma FirstFrameNames()
    ensures FrameFileName(0) == "frame_0.jpg" && FrameFileName(1) == "frame_1.jpg"
  {
  }

  /** Two regular files become `frame_0.jpg` and `frame_1.jpg` in reverse order. */
  lemma ReversedTwoFiles(fs: FileSystem, source: string, destination: string)
    requires |fs.listdir(source)| == 2
    requires var files := SortDesc(fs.listdir(source));
             fs.isFile(Path(source, files[0])) && fs.isFile(Path(source, files[1]))
    ensures var files := SortDesc(fs.listdir(source));
            ReversedCopies(fs, source, destination, 2)
            == [Copy(Path(source, files[0]), Path(destination, FrameFileName(0))),
                Copy(Path(source, files[1]), Path(destination, FrameFileName(1)))]
  {
    var files := SortDesc(fs.listdir(source));
    assert ReversedCopies(fs, source, destination, 1)
        == [Copy(Path(source, files[0]), Path(destination, FrameFileName(0)))];
  }

  /** The copies `duplicate_folder` makes for the first `n` entries of
      `sorted(os.listdir(source))`: each regular file under its own name. */
  function DuplicateCopies(fs: FileSystem, source: string, destination: string, n: nat): seq<Copy>
    requires n <= |fs.listdir(source)|
  {
    if n == 0 then []
    else
      var name := SortAsc(fs.listdir(source))[n - 1];
      DuplicateCopies(fs, source, destination, n - 1)
        + (if fs.isFile(Path(source, name)) then [Copy(Path(source, name), Path(destination, name))] else [])
  }

  /** `duplicate_folder(source_folder, destination_folder)`. */
  method DuplicateFolder(fs: FileSystem, source: string, destination: string) returns (copies: seq<Copy>)
    ensures copies == DuplicateCopies(fs, source, destination, |fs.listdir(source)|)
  {
    var files := SortAsc(fs.listdir(source));
    copies := [];
    for i := 0 to |files|
      invariant copies == DuplicateCopies(fs, source, destination, i)
    {
      var filePath := Path(source, files[i]);
      if fs.isFile(filePath) {
        copies := copies + [Copy(filePath, Path(destination, files[i]))];
      }
    }
  }

  /** Every copy among the first `n` entries is entry `i < n` of the sorted
      listing, a regular file, copied under its own name. */
  lemma {:induction false} DuplicateIndices(fs: FileSystem, source: string, destination: string, n: nat, c: Copy)
    requires n <= |fs.listdir(source)|
    ensures c in DuplicateCopies(fs, source, destination, n)
            <==> exists i :: 0 <= i < n && DuplicateCopyOf(fs, source, destination, SortAsc(fs.listdir(source))[i], c)
  {
    if n > 0 {
      DuplicateIndices(fs, source, destination, n - 1, c);
    }
  }

  /** The copy of entry `name`: a regular file copied under its own name. */
  predicate DuplicateCopyOf(fs: FileSystem, source: string, destination: string, name: string, c: Copy)
  {
    fs.isFile(Path(source, name)) && c == Copy(Path(source, name), Path(destination, name))
  }

  /** `duplicate_folder` copies exactly the regular files of the listing,
      each under its unchanged name, and ignores everything else. */
  lemma DuplicateMembers(fs: FileSystem, source: string, destination: string, c: Copy)
    ensures c in DuplicateCopies(fs, source, destination, |fs.listdir(source)|)
            <==> exists name :: name in fs.listdir(source) && DuplicateCopyOf(fs, source, destination, name, c)
  {
    var listing := fs.listdir(source);
    var files := SortAsc(listing);
    DuplicateIndices(fs, source, destination, |listing|, c);
    if exists name :: name in listing && DuplicateCopyOf(fs, source, destination, name, c) {
      var name :| name in listing && DuplicateCopyOf(fs, source, destination, name, c);
      assert name in multiset(files);
      var i :| 0 <= i < |files| && files[i] == name;
    }
    if exists i :: 0 <= i < |listing| && DuplicateCopyOf(fs, source, destination, files[i], c) {
      var i :| 0 <= i < |listing| && DuplicateCopyOf(fs, source, destination, files[i], c);
      assert files[i] in multiset(listing);
    }
  }

  predicate NamesAscending(copies: seq<Copy>)
  {
    forall a, b :: 0 <= a < b < |copies| ==> AtMost(copies[a].dst.name, copies[b].dst.name)
  }

  /** The copies are made in string order of their names. */
  lemma {:induction false} DuplicateAscending(fs: FileSystem, source: string, destination: string, n: nat)
    requires n <= |fs.listdir(source)|
    ensures NamesAscending(DuplicateCopies(fs, source, destination, n))
  {
    if n > 0 {
      var files := SortAsc(fs.listdir(source));
      DuplicateAscending(fs, source, destination, n - 1);
      var before := DuplicateCopies(fs, source, destination, n - 1);
      var copies := DuplicateCopies(fs, source, destination, n);
      forall a | 0 <= a < |before| ensures AtMost(before[a].dst.name, files[n - 1]) {
        DuplicateIndices(fs, source, destination, n - 1, before[a]);
        var j :| 0 <= j < n - 1 && DuplicateCopyOf(fs, source, destination, files[j], before[a]);
        assert AtMost(files[j], files[n - 1]);
      }
      forall a, b | 0 <= a < b < |copies| ensures AtMost(copies[a].dst.name, copies[b].dst.name) {
        assert copies[a] == before[a];
        if b < |before| {
          assert copies[b] == before[b];
          assert AtMost(before[a].dst.name, before[b].dst.name);
        } else {
          assert copies[b].dst.name == files[n - 1];
          assert AtMost(before[a].dst.name, files[n - 1]);
        }
      }
    }
  }
}
