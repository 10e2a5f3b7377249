/** `generate_commands` of commands.py: every line of the result file that
    contains `Схожесть: <digits>.<digits>%` gives one command line, built
    from the first such value by four strict thresholds. */
module Commands {
  import opened Common
  import opened Analiz

  /** The value of the pattern `Схожесть: (\d+\.\d+)%` matched at `p`, or
      None when it does not match there. Each `\d+` is followed by a
      character that is not a digit, so the only way to match is with the
      whole run of digits. */
  function MatchAt(s: string, p: nat): Option<real>
    requires p <= |s|
  {
    var i := p + |SimilarityLabel|;
    if i > |s| || s[p..i] != SimilarityLabel then None
    else
      var e1 := DigitRunEnd(s, i);
      if e1 == i || e1 == |s| || s[e1] != '.' then None
      else
        var e2 := DigitRunEnd(s, e1 + 1);
        if e2 == e1 + 1 || e2 == |s| || s[e2] != '%' then None
        else Some(DecimalValue(s[i..e1], s[e1 + 1..e2]))
  }

  /** The text at `p` is the label, the digits `ip`, '.', the digits `fp` and '%'. */
  predicate MatchesWith(s: string, p: nat, ip: string, fp: string)
  {
    var i := p + |SimilarityLabel|;
    var e1 := i + |ip|;
    var e2 := e1 + 1 + |fp|;
    && |ip| > 0 && |fp| > 0 && AllDigits(ip) && AllDigits(fp) && e2 < |s|
    && s[p..i] == SimilarityLabel && s[i..e1] == ip && s[e1] == '.' && s[e1 + 1..e2] == fp && s[e2] == '%'
  }

  /** Whatever `MatchAt` finds is an occurrence of the pattern, read as a decimal. */
  lemma MatchAtSound(s: string, p: nat)
    requires p <= |s| && MatchAt(s, p).Some?
    ensures exists ip, fp :: MatchesWith(s, p, ip, fp) && MatchAt(s, p).value == DecimalValue(ip, fp)
  {
    var i := p + |SimilarityLabel|;
    var e1 := DigitRunEnd(s, i);
    var e2 := DigitRunEnd(s, e1 + 1);
    assert MatchesWith(s, p, s[i..e1], s[e1 + 1..e2]);
  }

  /** Every occurrence of the pattern is found, with its value. */
  lemma MatchAtComplete(s: string, p: nat, ip: string, fp: string)
    requires p <= |s| && MatchesWith(s, p, ip, fp)
    ensures MatchAt(s, p) == Some(DecimalValue(ip, fp))
  {
    var i := p + |SimilarityLabel|;
    var e1 := i + |ip|;
    DigitRunOf(s, i, ip);
    DigitRunOf(s, e1 + 1, fp);
  }

  /** The label starts with 'С' and has ':' at offset 8. */
  lemma MatchNeedsLabel(s: string, p: nat)
    requires p <= |s| && MatchAt(s, p).Some?
    ensures p + 8 < |s| && s[p] == 'С' && s[p + 8] == ':'
  {
    assert s[p..p + |SimilarityLabel|][0] == s[p];
    assert s[p..p + |SimilarityLabel|][8] == s[p + 8];
  }

  /** The leftmost position from `p` on where the pattern matches. */
  function FirstMatch(s: string, p: nat): (r: Option<nat>)
    requires p <= |s|
    ensures r.Some? ==> p <= r.value <= |s| && MatchAt(s, r.value).Some?
    ensures r.Some? ==> forall q :: p <= q < r.value ==> MatchAt(s, q).None?
    ensures r.None? ==> forall q :: p <= q <= |s| ==> MatchAt(s, q).None?
    decreases |s| - p
  {
    if MatchAt(s, p).Some? then Some(p)
    else if p == |s| then None
    else FirstMatch(s, p + 1)
  }

  /** `re.search(r'Схожесть: (\d+\.\d+)%', line)` and `float(match.group(1))`. */
  function Search(s: string): Option<real>
  {
    match FirstMatch(s, 0)
    case None => None
    case Some(p) => MatchAt(s, p)
  }

  /** The value found is the one at the leftmost occurrence of the pattern;
      a line without an occurrence gives nothing. */
  lemma SearchLeftmost(s: string, p: nat)
    requires p <= |s|
    ensures MatchAt(s, p).Some? && (forall q :: 0 <= q < p ==> MatchAt(s, q).None?) ==>
              Search(s) == MatchAt(s, p)
    ensures (forall q :: 0 <= q <= |s| ==> MatchAt(s, q).None?) ==> Search(s) == None
  {
    var r := FirstMatch(s, 0);
  }

  /** An occurrence with none before it is what the search returns. */
  lemma SearchFinds(s: string, p: nat, ip: string, fp: string)
    requires p <= |s| && MatchesWith(s, p, ip, fp)
    requires forall q :: 0 <= q < p ==> MatchAt(s, q).None?
    ensures Search(s) == Some(DecimalValue(ip, fp))
  {
    MatchAtComplete(s, p, ip, fp);
    SearchLeftmost(s, p);
  }

  /** A line that contains no ':' never matches. */
  lemma NoColonNoMatch(s: string)
    requires ':' !in s
    ensures Search(s) == None
  {
    forall q | 0 <= q <= |s| ensures MatchAt(s, q).None? {
      if MatchAt(s, q).Some? {
        MatchNeedsLabel(s, q);
      }
    }
    SearchLeftmost(s, 0);
  }

  /** The four commands, from no correction to an urgent one. */
  datatype Command = NoCorrection | Advised | Needed | Urgent

  function CommandText(c: Command): string
  {
    match c
    case NoCorrection => "Корректировка маршрута не требуется"
    case Advised => "Рекомендована корректировка"
    case Needed => "Необходима корректировка маршрута"
    case Urgent => "Критическое схождение с маршрута. " + "Необходима срочная корректировка"
  }

  /** The command for a similarity: strict thresholds 75, 50 and 30. */
  function Classify(similarity: real): (c: Command)
    ensures c == NoCorrection <==> similarity > 75.0
    ensures c == Advised <==> 50.0 < similarity <= 75.0
    ensures c == Needed <==> 30.0 < similarity <= 50.0
    ensures c == Urgent <==> similarity <= 30.0
  {
    if similarity > 75.0 then NoCorrection
    else if similarity > 50.0 then Advised
    else if similarity > 30.0 then Needed
    else Urgent
  }

  /** A threshold value gets the more severe command. */
  lemma ClassifyBoundaries()
    ensures Classify(75.0) == Advised
    ensures Classify(50.0) == Needed
    ensures Classify(30.0) == Urgent
  {
  }

  lemma CommandTextLacksColon(c: Command)
    ensures ':' !in CommandText(c)
  {
    match c
    case NoCorrection => NoCorrectionLacksColon();
    case Advised => AdvisedLacksColon();
    case Needed => NeededLacksColon();
    case Urgent =>
      CriticalLacksColon();
      UrgentAdviceLacksColon();
  }

  lemma NoCorrectionLacksColon()
    ensures ':' !in "Корректировка маршрута не требуется"
  {
  }

  lemma AdvisedLacksColon()
    ensures ':' !in "Рекомендована корректировка"
  {
  }

  lemma NeededLacksColon()
    ensures ':' !in "Необходима корректировка маршрута"
  {
  }

  lemma CriticalLacksColon()
    ensures ':' !in "Критическое схождение с маршрута. "
  {
  }

  lemma UrgentAdviceLacksColon()
    ensures ':' !in "Необходима срочная корректировка"
  {
  }

  /** f"{command} - Схожесть {similarity:.2f}%\n". */
  function OutputLine(similarity: real): string
  {
    CommandText(Classify(similarity)) + (" - Схожесть " + (Fixed2(similarity) + "%\n"))
  }

  /** What one input line contributes to the commands file. */
  function LineOutput(line: string): (out: seq<string>)
    ensures |out| <= 1
    ensures |out| == 1 <==> Search(line).Some?
    ensures |out| == 1 ==> out[0] == OutputLine(Search(line).value)
  {
    match Search(line)
    case None => []
    case Some(similarity) => [OutputLine(similarity)]
  }

  /** A line gives one output line exactly when the pattern occurs somewhere in it. */
  lemma LineOutputOnPattern(line: string)
    ensures |LineOutput(line)| == 1 <==> exists p: nat, ip, fp :: p <= |line| && MatchesWith(line, p, ip, fp)
  {
    if Search(line).Some? {
      var p := FirstMatch(line, 0).value;
      MatchAtSound(line, p);
    }
    if exists p: nat, ip, fp :: p <= |line| && MatchesWith(line, p, ip, fp) {
      var p: nat, ip, fp :| p <= |line| && MatchesWith(line, p, ip, fp);
      MatchAtComplete(line, p, ip, fp);
    }
  }

  /** The output line carries the value of the first occurrence of the pattern. */
  lemma LineOutputFirstMatch(line: string, p: nat, ip: string, fp: string)
    requires p <= |line| && MatchesWith(line, p, ip, fp)
    requires forall q :: 0 <= q < p ==> MatchAt(line, q).None?
    ensures LineOutput(line) == [OutputLine(DecimalValue(ip, fp))]
  {
    SearchFinds(line, p, ip, fp);
  }

  /** The commands file for the lines of the result file. */
  function Generate(lines: seq<string>): (out: seq<string>)
    ensures |out| <= |lines|
    decreases |lines|
  {
    if lines == [] then [] else Generate(lines[..|lines| - 1]) + LineOutput(lines[|lines| - 1])
  }

  /** `generate_commands(result_file, commands_file)`: the lines written. */
  method GenerateCommands(lines: seq<string>) returns (written: seq<string>)
    ensures written == Generate(lines)
  {
    written := [];
    for i := 0 to |lines|
      invariant written == Generate(lines[..i])
    {
      assert lines[..i + 1][..i] == lines[..i];
      var line := lines[i];
      var found := Search(line);
      if found.Some? {
        var similarity := found.value;
        var command := CommandText(Classify(similarity));
        written := written + [command + (" - Схожесть " + (Fixed2(similarity) + "%\n"))];
      }
    }
    assert lines[..|lines|] == lines;
  }

  /** The output of consecutive chunks of input is the concatenation of
      their outputs: output lines keep the order of their input lines. */
  lemma {:induction false} GenerateAppend(a: seq<string>, b: seq<string>)
    ensures Generate(a + b) == Generate(a) + Generate(b)
    decreases |b|
  {
    if b == [] {
      assert a + b == a;
    } else {
      var b' := b[..|b| - 1];
      assert (a + b)[..|a + b| - 1] == a + b';
      GenerateAppend(a, b');
    }
  }

  /** Every written line is the command line of some similarity. */
  lemma {:induction false} GenerateWritesCommandLines(lines: seq<string>, k: nat)
    requires k < |Generate(lines)|
    ensures exists similarity :: Generate(lines)[k] == OutputLine(similarity)
    decreases |lines|
  {
    var init := lines[..|lines| - 1];
    if k < |Generate(init)| {
      GenerateWritesCommandLines(init, k);
    }
  }

  /** Input lines without a match give no output at all. */
  lemma {:induction false} GenerateNothing(lines: seq<string>)
    requires forall i :: 0 <= i < |lines| ==> Search(lines[i]) == None
    ensures Generate(lines) == []
    decreases |lines|
  {
    if lines != [] {
      GenerateNothing(lines[..|lines| - 1]);
    }
  }

  lemma DigitMembers(d: string)
    requires AllDigits(d)
    ensures forall c :: c in d ==> IsDigit(c)
  {
    forall c | c in d ensures IsDigit(c) {
      var i :| 0 <= i < |d| && d[i] == c;
    }
  }

  /** f"{x:.2f}" is made of digits, '.' and a leading '-'. */
  lemma Fixed2Chars(x: real)
    ensures forall c :: c in Fixed2(x) ==> c == '-' || c == '.' || IsDigit(c)
  {
    var h := if x < 0.0 then Hundredths(-x) else Hundredths(x);
    DigitMembers(NatToString(h / 100));
    DigitMembers(Cents(h % 100));
  }

  /** A command line has no ':' after "Схожесть", so the parser finds nothing in it. */
  lemma OutputNotReparsed(similarity: real)
    ensures Search(OutputLine(similarity)) == None
  {
    Fixed2LacksLabel(similarity);
    CommandTextLacksColon(Classify(similarity));
    NoColonNoMatch(OutputLine(similarity));
  }

  /** Running the generator on its own output writes nothing. */
  lemma GenerateOnOwnOutput(lines: seq<string>)
    ensures Generate(Generate(lines)) == []
  {
    var out := Generate(lines);
    forall i | 0 <= i < |out| ensures Search(out[i]) == None {
      GenerateWritesCommandLines(lines, i);
      var similarity :| out[i] == OutputLine(similarity);
      OutputNotReparsed(similarity);
    }
    GenerateNothing(out);
  }

  /** A sign, or a value without a decimal point, is not matched. */
  lemma SignAndIntegerRejected()
    ensures Search("Схожесть: -3.20%") == None
    ensures Search("Схожесть: 40%") == None
  {
    var signed, whole := "Схожесть: -3.20%", "Схожесть: 40%";
    forall q | 0 <= q <= |signed| ensures MatchAt(signed, q).None? {
      if MatchAt(signed, q).Some? {
        MatchNeedsLabel(signed, q);
      }
    }
    SearchLeftmost(signed, 0);
    forall q | 0 <= q <= |whole| ensures MatchAt(whole, q).None? {
      if q > 0 {
        NoLabelNoMatch(whole, q);
      }
    }
    SearchLeftmost(whole, 0);
  }

  /** No match can start where there is no 'С'. */
  lemma NoLabelNoMatch(s: string, q: nat)
    requires q <= |s| && (q == |s| || s[q] != 'С')
    ensures MatchAt(s, q).None?
  {
    if MatchAt(s, q).Some? {
      MatchNeedsLabel(s, q);
    }
  }

  /** The label followed by `ip.fp%` matches right after `head`. */
  lemma LabelledMatch(head: string, ip: string, fp: string, post: string)
    requires AllDigits(ip) && AllDigits(fp) && |ip| > 0 && |fp| > 0
    requires |post| > 0 && post[0] == '%'
    ensures MatchesWith(head + (SimilarityLabel + ((ip + "." + fp) + post)), |head|, ip, fp)
  {
    var s := head + (SimilarityLabel + ((ip + "." + fp) + post));
    var p := |head|;
    var i := p + |SimilarityLabel|;
    var e1 := i + |ip|;
    var e2 := e1 + 1 + |fp|;
    assert forall k :: 0 <= k < |SimilarityLabel| ==> s[p + k] == SimilarityLabel[k];
    assert s[p..i] == SimilarityLabel;
    assert forall k :: 0 <= k < |ip| ==> s[i + k] == ip[k];
    assert s[i..e1] == ip;
    assert s[e1] == '.';
    assert forall k :: 0 <= k < |fp| ==> s[e1 + 1 + k] == fp[k];
    assert s[e1 + 1..e2] == fp;
    assert s[e2] == '%';
  }

  /** After a head without 'С', the label followed by `ip.fp%` is what the search finds. */
  lemma LabelledSearch(head: string, ip: string, fp: string, post: string)
    requires 'С' !in head
    requires AllDigits(ip) && AllDigits(fp) && |ip| > 0 && |fp| > 0
    requires |post| > 0 && post[0] == '%'
    ensures Search(head + (SimilarityLabel + ((ip + "." + fp) + post))) == Some(DecimalValue(ip, fp))
  {
    var s := head + (SimilarityLabel + ((ip + "." + fp) + post));
    forall q | 0 <= q < |head| ensures MatchAt(s, q).None? {
      assert s[q] == head[q];
      NoLabelNoMatch(s, q);
    }
    LabelledMatch(head, ip, fp, post);
    SearchFinds(s, |head|, ip, fp);
  }

  /** The time text after the similarity on a result line. */
  function TimeText(seconds: real): string
  {
    "% - Время обработки: " + (Fixed2(seconds) + " секунд\n")
  }

  /** A result line with a non-negative similarity: head, label, the
      rounded value's digits and '.', then the time text. */
  lemma ResultLineShape(i: nat, similarity: real, seconds: real)
    requires similarity >= 0.0
    ensures var h := Hundredths(similarity);
            PairLine(i, similarity, seconds)
              == PairHead(i) + (SimilarityLabel + ((NatToString(h / 100) + "." + Cents(h % 100)) + TimeText(seconds)))
  {
  }

  /** The line ANALIZ.py writes for a pair is read back by the parser as
      the similarity rounded to hundredths when it is non-negative. */
  lemma ResultLineRoundTrip(i: nat, similarity: real, seconds: real)
    requires similarity >= 0.0
    ensures var found := Search(PairLine(i, similarity, seconds));
            found.Some? && found.value == Hundredths(similarity) as real / 100.0
  {
    var h := Hundredths(similarity);
    HeadLacksLabel(i);
    ResultLineShape(i, similarity, seconds);
    LabelledSearch(PairHead(i), NatToString(h / 100), Cents(h % 100), TimeText(seconds));
    HundredthsRoundTrip(h);
  }

  /** A label followed by '-' is no match, and without another 'С' there is none elsewhere. */
  lemma SignedSkipped(head: string, tail: string)
    requires 'С' !in head && 'С' !in tail
    requires |tail| > 0 && tail[0] == '-'
    ensures Search(head + (SimilarityLabel + tail)) == None
  {
    var s := head + (SimilarityLabel + tail);
    var p0 := |head|;
    var start := p0 + |SimilarityLabel|;
    assert s[start] == '-';
    assert DigitRunEnd(s, start) == start;
    forall q | 0 <= q <= |s| ensures MatchAt(s, q).None? {
      if q < p0 {
        assert s[q] == head[q];
        NoLabelNoMatch(s, q);
      } else if p0 < q < start {
        assert s[q] == SimilarityLabel[q - p0];
        NoLabelNoMatch(s, q);
      } else if start <= q < |s| {
        assert s[q] == tail[q - start];
        NoLabelNoMatch(s, q);
      } else if q == |s| {
        NoLabelNoMatch(s, q);
      }
    }
    SearchLeftmost(s, 0);
  }

  /** Neither the label's 'С' nor its ':' occurs in f"{x:.2f}". */
  lemma Fixed2LacksLabel(x: real)
    ensures 'С' !in Fixed2(x) && ':' !in Fixed2(x)
  {
    Fixed2Chars(x);
  }

  lemma TimeTextLacksLabel(x: string, y: string)
    requires 'С' !in x && 'С' !in y
    ensures 'С' !in x + ("% - Время обработки: " + (y + " секунд\n"))
  {
    assert 'С' !in "% - Время обработки: " && 'С' !in " секунд\n";
  }

  /** The head of a result line has no 'С'. */
  lemma HeadLacksLabel(i: nat)
    ensures 'С' !in PairHead(i)
  {
    DigitMembers(NatToString(i + 1));
  }

  /** A negative similarity is written with its sign, and the parser reads
      nothing from that line. */
  lemma NegativeResultLineSkipped(i: nat, similarity: real, seconds: real)
    requires similarity < 0.0
    ensures Search(PairLine(i, similarity, seconds)) == None
  {
    HeadLacksLabel(i);
    Fixed2LacksLabel(similarity);
    Fixed2LacksLabel(seconds);
    TimeTextLacksLabel(Fixed2(similarity), Fixed2(seconds));
    SignedSkipped(PairHead(i), SimilarityTail(similarity, seconds));
  }
}
