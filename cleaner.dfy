/** Cleaner.py: `is_noisy_image` rejects a frame whose grayscale image is
    too flat, too dark, too bright or has too narrow a histogram;
    `filter_images` copies the frames that pass into an output folder under
    their own names; `process_folders` does this for both directions. The
    image statistics are inputs; a regular file that `cv2.imread` cannot
    decode has none, and then `image.std()` raises. */
module Cleaner {
  import opened Common

  /** The grayscale image's `std()`, its `mean()` and `np.ptp` of its
      256-bin histogram. */
  datatype Stats = Stats(std: real, mean: real, histRange: real)

  /** `is_noisy_image`: the three thresholds are strict, so a value on a
      threshold is clean. */
  function IsNoisy(s: Stats): (noisy: bool)
    ensures s.std < 15.0 ==> noisy
    ensures s.mean < 50.0 || s.mean > 200.0 ==> noisy
    ensures s.histRange < 50.0 ==> noisy
    ensures !noisy <==> 15.0 <= s.std && 50.0 <= s.mean <= 200.0 && 50.0 <= s.histRange
  {
    s.std < 15.0 || (s.mean < 50.0 || s.mean > 200.0) || s.histRange < 50.0
  }

  /** The copies made, and whether the loop finished or an exception stopped it. */
  datatype Run = Finished(copies: seq<Copy>) | Failed(copies: seq<Copy>)

  /** `filter_images` over the first `n` entries of `os.listdir(input)`, in
      listing order: a regular file with statistics that are not noisy is
      written to the output folder under the same name; a regular file
      without statistics raises. */
  function Filtered(fs: FileSystem, stats: Path -> Option<Stats>, input: string, output: string, n: nat): Run
    requires n <= |fs.listdir(input)|
  {
    if n == 0 then Finished([])
    else
      match Filtered(fs, stats, input, output, n - 1)
      case Failed(copies) => Failed(copies)
      case Finished(copies) =>
        var name := fs.listdir(input)[n - 1];
        var path := Path(input, name);
        if !fs.isFile(path) then Finished(copies)
        else
          match stats(path)
          case None => Failed(copies)
          case Some(s) => if IsNoisy(s) then Finished(copies) else Finished(copies + [Copy(path, Path(output, name))])
  }

  /** `filter_images(input_folder, output_folder)`. */
  method FilterImages(fs: FileSystem, stats: Path -> Option<Stats>, input: string, output: string) returns (run: Run)
    ensures run == Filtered(fs, stats, input, output, |fs.listdir(input)|)
  {
    var listing := fs.listdir(input);
    var copies: seq<Copy> := [];
    for i := 0 to |listing|
      invariant Filtered(fs, stats, input, output, i) == Finished(copies)
    {
      var filePath := Path(input, listing[i]);
      if fs.isFile(filePath) {
        var image := stats(filePath);
        if image.None? {
          FailureStops(fs, stats, input, output, i + 1, |listing|);
          return Failed(copies);
        }
        if !IsNoisy(image.value) {
          copies := copies + [Copy(filePath, Path(output, listing[i]))];
        }
      }
    }
    run := Finished(copies);
  }

  /** Once an entry raises, the later entries are not looked at. */
  lemma {:induction false} FailureStops(fs: FileSystem, stats: Path -> Option<Stats>, input: string, output: string, m: nat, n: nat)
    requires m <= n <= |fs.listdir(input)|
    requires Filtered(fs, stats, input, output, m).Failed?
    ensures Filtered(fs, stats, input, output, n) == Filtered(fs, stats, input, output, m)
    decreases n - m
  {
    if m < n {
      FailureStops(fs, stats, input, output, m, n - 1);
    }
  }

  /** Entry `name` of the input folder is kept as the copy `c`. */
  predicate Kept(fs: FileSystem, stats: Path -> Option<Stats>, input: string, output: string, name: string, c: Copy)
  {
    var path := Path(input, name);
    fs.isFile(path) && stats(path).Some? && !IsNoisy(stats(path).value) && c == Copy(path, Path(output, name))
  }

  /** Every copy is a regular, clean entry among the first `n`, under its
      own name; when the loop finishes, every such entry is copied. */
  lemma {:induction false} FilteredMembers(fs: FileSystem, stats: Path -> Option<Stats>, input: string, output: string, n: nat, c: Copy)
    requires n <= |fs.listdir(input)|
    ensures c in Filtered(fs, stats, input, output, n).copies
            ==> exists i :: 0 <= i < n && Kept(fs, stats, input, output, fs.listdir(input)[i], c)
    ensures Filtered(fs, stats, input, output, n).Finished?
            ==> forall i :: 0 <= i < n && Kept(fs, stats, input, output, fs.listdir(input)[i], c)
                  ==> c in Filtered(fs, stats, input, output, n).copies
  {
    if n > 0 {
      FilteredMembers(fs, stats, input, output, n - 1, c);
      var name := fs.listdir(input)[n - 1];
      if Kept(fs, stats, input, output, name, c) && Filtered(fs, stats, input, output, n - 1).Finished? {
        assert c in Filtered(fs, stats, input, output, n).copies;
      }
      if c in Filtered(fs, stats, input, output, n).copies && c !in Filtered(fs, stats, input, output, n - 1).copies {
        assert Kept(fs, stats, input, output, name, c);
      }
    }
  }

  /** The loop raises exactly when some regular file among the first `n`
      entries has no statistics. */
  lemma {:induction false} FilteredFails(fs: FileSystem, stats: Path -> Option<Stats>, input: string, output: string, n: nat)
    requires n <= |fs.listdir(input)|
    ensures Filtered(fs, stats, input, output, n).Failed?
            <==> exists i :: 0 <= i < n && Unreadable(fs, stats, Path(input, fs.listdir(input)[i]))
  {
    if n > 0 {
      FilteredFails(fs, stats, input, output, n - 1);
    }
  }

  /** A regular file that `cv2.imread` cannot decode. */
  predicate Unreadable(fs: FileSystem, stats: Path -> Option<Stats>, path: Path)
  {
    fs.isFile(path) && stats(path).None?
  }

  /** The folders `process_folders` cleans. */
  const Folders: seq<string> := ["a2b_foto", "b2a_foto"]

  /** f"{folder}_analiz". */
  function OutputFolder(folder: string): (out: string)
    ensures |out| == |folder| + 7 && out[..|folder|] == folder
  {
    folder + "_analiz"
  }

  /** Different input folders never share an output folder. */
  lemma OutputFolderInjective(f: string, g: string)
    requires f != g
    ensures OutputFolder(f) != OutputFolder(g)
  {
    if |f| == |g| {
      assert OutputFolder(f)[..|f|] == f && OutputFolder(g)[..|g|] == g;
    }
  }

  /** The output folders of the two directions. */
  lemma OutputFolders()
    ensures OutputFolder(Folders[0]) == "a2b_foto_analiz" && OutputFolder(Folders[1]) == "b2a_foto_analiz"
  {
  }

  /** `process_folders` over `folders`: each folder is filtered into its
      output folder in turn, and an exception stops the rest. */
  function ProcessAll(fs: FileSystem, stats: Path -> Option<Stats>, folders: seq<string>): Run
    decreases |folders|
  {
    if folders == [] then Finished([])
    else
      match Filtered(fs, stats, folders[0], OutputFolder(folders[0]), |fs.listdir(folders[0])|)
      case Failed(copies) => Failed(copies)
      case Finished(copies) => After(copies, ProcessAll(fs, stats, folders[1..]))
  }

  /** `run`, with `copies` made before it. */
  function After(copies: seq<Copy>, run: Run): (r: Run)
    ensures r.Finished? == run.Finished? && r.copies == copies + run.copies
  {
    match run
    case Finished(rest) => Finished(copies + rest)
    case Failed(rest) => Failed(copies + rest)
  }

  /** `process_folders()`. */
  method ProcessFolders(fs: FileSystem, stats: Path -> Option<Stats>) returns (run: Run)
    ensures run == ProcessAll(fs, stats, Folders)
  {
    var copies: seq<Copy> := [];
    for i := 0 to |Folders|
      invariant ProcessAll(fs, stats, Folders) == After(copies, ProcessAll(fs, stats, Folders[i..]))
    {
      var folder := Folders[i];
      assert Folders[i..][1..] == Folders[i + 1..];
      var result := FilterImages(fs, stats, folder, OutputFolder(folder));
      if result.Failed? {
        AfterAssociative(copies, result.copies, Failed([]));
        assert result.copies + [] == result.copies;
        return Failed(copies + result.copies);
      }
      AfterAssociative(copies, result.copies, ProcessAll(fs, stats, Folders[i + 1..]));
      copies := copies + result.copies;
    }
    assert Folders[|Folders|..] == [];
    assert copies + [] == copies;
    run := Finished(copies);
  }

  lemma AfterAssociative(a: seq<Copy>, b: seq<Copy>, run: Run)
    ensures After(a, After(b, run)) == After(a + b, run)
  {
    assert a + (b + run.copies) == (a + b) + run.copies;
  }

  /** Every copy `process_folders` makes goes from one of the two folders
      into that folder's `_analiz` folder under the same name. */
  lemma {:induction false} ProcessAllCopies(fs: FileSystem, stats: Path -> Option<Stats>, folders: seq<string>, c: Copy)
    requires c in ProcessAll(fs, stats, folders).copies
    ensures c.src.folder in folders && c.dst == Path(OutputFolder(c.src.folder), c.src.name)
    decreases |folders|
  {
    var first := folders[0];
    var here := Filtered(fs, stats, first, OutputFolder(first), |fs.listdir(first)|);
    if c in here.copies {
      FilteredMembers(fs, stats, first, OutputFolder(first), |fs.listdir(first)|, c);
    } else {
      ProcessAllCopies(fs, stats, folders[1..], c);
    }
  }
}
