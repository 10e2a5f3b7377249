/** `compare_images` and `compare_folders` of ANALIZ.py: the two folders'
    listings are sorted independently, zipped, and the pairs are compared in
    order until the first pair that is not two regular files, or until a
    file cannot be decoded as an image, where `cv2.resize` raises and the
    run ends with the lines written so far. The embedding model and the
    cosine similarity are inputs, and so is the time a comparison takes. */
module Analiz {
  import opened Common
  import opened Listing

  /** `compare_images`: the cosine of the two embeddings times 100, not clamped. */
  function CompareImages(cosine: real): (percentage: real)
    ensures cosine >= 0.0 <==> percentage >= 0.0
    ensures -1.0 <= cosine <= 1.0 <==> -100.0 <= percentage <= 100.0
    ensures cosine > 1.0 ==> percentage > 100.0
  {
    cosine * 100.0
  }

  /** The label in front of the similarity on a result line; commands.py
      looks for the same text. */
  const SimilarityLabel: string := "Схожесть: "

  /** The line written for the pair with `enumerate` index `i`. */
  function PairLine(i: nat, similarity: real, seconds: real): string
  {
    PairHead(i) + (SimilarityLabel + SimilarityTail(similarity, seconds))
  }

  /** "Пара {i+1} - ". */
  function PairHead(i: nat): string
  {
    "Пара " + NatToString(i + 1) + " - "
  }

  /** What follows the label: the similarity and the time, two decimals each. */
  function SimilarityTail(similarity: real, seconds: real): string
  {
    Fixed2(similarity) + ("% - Время обработки: " + (Fixed2(seconds) + " секунд\n"))
  }

  /** What `compare_folders` reads from outside: the two folder names, their
      `os.listdir` listings, `os.path.isfile`, the cosine of two images (None
      when `cv2.imread` cannot decode one of them, so that `cv2.resize`
      raises), and the time the i-th comparison takes. */
  datatype Comparison = Comparison(
    folderA: string,
    folderB: string,
    listingA: seq<string>,
    listingB: seq<string>,
    isFile: Path -> bool,
    cosine: (Path, Path) -> Option<real>,
    elapsed: nat -> real)

  function Min(m: nat, n: nat): nat
  {
    if m <= n then m else n
  }

  /** Both entries of pair `k` are regular files. */
  predicate BothFiles(c: Comparison, filesA: seq<string>, filesB: seq<string>, k: nat)
    requires k < |filesA| && k < |filesB|
  {
    c.isFile(Path(c.folderA, filesA[k])) && c.isFile(Path(c.folderB, filesB[k]))
  }

  /** Pair `k` is two files whose features can both be extracted. */
  predicate Compares(c: Comparison, filesA: seq<string>, filesB: seq<string>, k: nat)
    requires k < |filesA| && k < |filesB|
  {
    BothFiles(c, filesA, filesB, k) && c.cosine(Path(c.folderA, filesA[k]), Path(c.folderB, filesB[k])).Some?
  }

  /** The index of the first pair from `i` on that is not two files or
      cannot be compared, or the length of the shorter listing. */
  function StopFrom(c: Comparison, filesA: seq<string>, filesB: seq<string>, i: nat): (n: nat)
    requires i <= Min(|filesA|, |filesB|)
    ensures i <= n <= Min(|filesA|, |filesB|)
    ensures forall k :: i <= k < n ==> Compares(c, filesA, filesB, k)
    ensures n < Min(|filesA|, |filesB|) ==> !Compares(c, filesA, filesB, n)
    decreases Min(|filesA|, |filesB|) - i
  {
    if i == Min(|filesA|, |filesB|) || !Compares(c, filesA, filesB, i) then i
    else StopFrom(c, filesA, filesB, i + 1)
  }

  /** The number of pairs written. */
  function Written(c: Comparison): nat
  {
    StopFrom(c, SortAsc(c.listingA), SortAsc(c.listingB), 0)
  }

  /** The run stops at a pair of two files that cannot be compared: the
      exception leaves `compare_folders`. */
  predicate Raises(c: Comparison)
  {
    var filesA, filesB := SortAsc(c.listingA), SortAsc(c.listingB);
    Written(c) < Min(|filesA|, |filesB|) && BothFiles(c, filesA, filesB, Written(c))
  }

  /** The line of pair `k`: its number, the similarity of the k-th names of
      the two sorted listings and the time that comparison took. */
  function LineOf(c: Comparison, k: nat): string
    requires k < Written(c)
  {
    var filesA, filesB := SortAsc(c.listingA), SortAsc(c.listingB);
    assert Compares(c, filesA, filesB, k);
    var similarity := CompareImages(c.cosine(Path(c.folderA, filesA[k]), Path(c.folderB, filesB[k])).value);
    PairLine(k, similarity, c.elapsed(k))
  }

  /** The contents of the result file. */
  function ResultLines(c: Comparison): (lines: seq<string>)
    ensures |lines| == Written(c)
  {
    seq(Written(c), k requires 0 <= k < Written(c) => LineOf(c, k))
  }

  /** `compare_folders(folder_a2b, folder_b2a, result_file)`: the written
      lines, and whether the run ended by an exception. */
  method CompareFolders(c: Comparison) returns (lines: seq<string>, raised: bool)
    ensures lines == ResultLines(c)
    ensures raised == Raises(c)
  {
    var filesA := SortAsc(c.listingA);
    var filesB := SortAsc(c.listingB);
    lines, raised := [], false;
    var i := 0;
    while i < |filesA| && i < |filesB|
      invariant i <= Min(|filesA|, |filesB|) && StopFrom(c, filesA, filesB, i) == Written(c)
      invariant |lines| == i && forall k :: 0 <= k < i ==> lines[k] == LineOf(c, k)
      decreases |filesA| - i
    {
      var pathA := Path(c.folderA, filesA[i]);
      var pathB := Path(c.folderB, filesB[i]);
      if c.isFile(pathA) && c.isFile(pathB) {
        var cosine := c.cosine(pathA, pathB);
        if cosine.None? {
          assert !Compares(c, filesA, filesB, i);
          raised := true;
          AllResultLines(c, lines);
          return;
        }
        assert Compares(c, filesA, filesB, i);
        var similarity := CompareImages(cosine.value);
        var seconds := c.elapsed(i);
        assert PairLine(i, similarity, seconds) == LineOf(c, i);
        NextLine(c, lines, PairLine(i, similarity, seconds));
        lines := lines + [PairLine(i, similarity, seconds)];
      } else {
        assert !Compares(c, filesA, filesB, i);
        break;
      }
      i := i + 1;
    }
    AllResultLines(c, lines);
  }

  lemma NextLine(c: Comparison, lines: seq<string>, line: string)
    requires |lines| < Written(c) && line == LineOf(c, |lines|)
    requires forall k :: 0 <= k < |lines| ==> lines[k] == LineOf(c, k)
    ensures forall k :: 0 <= k <= |lines| ==> (lines + [line])[k] == LineOf(c, k)
  {
  }

  lemma AllResultLines(c: Comparison, lines: seq<string>)
    requires |lines| == Written(c) && forall k :: 0 <= k < |lines| ==> lines[k] == LineOf(c, k)
    ensures lines == ResultLines(c)
  {
  }

  /** No more lines than the shorter listing has names; every written pair
      is two regular files that could be compared; when fewer lines are
      written, the pair after the last one is not two files (the loop breaks)
      or cannot be compared (the run raises). */
  lemma StopRule(c: Comparison)
    ensures Written(c) <= |c.listingA| && Written(c) <= |c.listingB|
    ensures var filesA, filesB := SortAsc(c.listingA), SortAsc(c.listingB);
            && (forall k :: 0 <= k < Written(c) ==> Compares(c, filesA, filesB, k))
            && (Written(c) < Min(|c.listingA|, |c.listingB|) && !Raises(c) ==> !BothFiles(c, filesA, filesB, Written(c)))
            && (Raises(c) ==> c.cosine(Path(c.folderA, filesA[Written(c)]), Path(c.folderB, filesB[Written(c)])).None?)
  {
  }

  /** A valid pair after the first one that is not two files, or cannot be
      compared, is never written. */
  lemma LaterPairsDropped(c: Comparison, j: nat)
    requires j < |c.listingA| && j < |c.listingB|
    requires exists k :: 0 <= k < j && !Compares(c, SortAsc(c.listingA), SortAsc(c.listingB), k)
    ensures Written(c) < j
  {
    StopRule(c);
  }

  /** The number after "Пара " at the head of a result line. */
  function PairNumber(line: string): nat
  {
    if |line| < 5 then 0 else DigitsValue(line[5..DigitRunEnd(line, 5)])
  }

  /** The number written at the head of a pair line reads back as `i + 1`. */
  lemma PairNumberOfLine(i: nat, similarity: real, seconds: real)
    ensures PairNumber(PairLine(i, similarity, seconds)) == i + 1
  {
    PairNumberAfterHead(i, SimilarityLabel + SimilarityTail(similarity, seconds));
  }

  lemma PairNumberAfterHead(i: nat, rest: string)
    ensures PairNumber(PairHead(i) + rest) == i + 1
  {
    var n := NatToString(i + 1);
    DigitsBetween("Пара ", n, " - ", rest);
    DigitRunOf(PairHead(i) + rest, 5, n);
    NatToStringRoundTrip(i + 1);
  }

  /** In `p + n + q + x`, the text `n` starts at `|p|` and is followed by `q`'s first character. */
  lemma DigitsBetween(p: string, n: string, q: string, x: string)
    requires |q| > 0
    ensures var line := p + n + q + x;
            line[|p|..|p| + |n|] == n && line[|p| + |n|] == q[0]
  {
    var line := p + n + q + x;
    assert forall k :: 0 <= k < |n| ==> line[|p| + k] == n[k];
  }

  /** The lines of the result file are numbered 1, 2, 3, ... in order. */
  lemma LinesNumberedConsecutively(c: Comparison, k: nat)
    requires k < |ResultLines(c)|
    ensures PairNumber(ResultLines(c)[k]) == k + 1
  {
    var filesA, filesB := SortAsc(c.listingA), SortAsc(c.listingB);
    assert Compares(c, filesA, filesB, k);
    var similarity := CompareImages(c.cosine(Path(c.folderA, filesA[k]), Path(c.folderB, filesB[k])).value);
    PairNumberOfLine(k, similarity, c.elapsed(k));
  }

  /** Different pairs give different lines. */
  lemma PairLinesDistinct(j: nat, k: nat, s: real, t: real, s': real, t': real)
    requires j != k
    ensures PairLine(j, s, t) != PairLine(k, s', t')
  {
    PairNumberOfLine(j, s, t);
    PairNumberOfLine(k, s', t');
  }
}
