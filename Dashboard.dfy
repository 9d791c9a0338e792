/**
  The dataset-statistics step (`process_jsonl` in dashboard_preprocess.py):
  it reads the manifest line by line into parallel columns, then derives the
  per-utterance counts, the corpus vocabulary and alphabet, ten equal-width
  duration bins with each utterance's bin, and the summary totals.
  The manifest arrives already parsed, one `Manifest.ManifestRecord` per
  JSON line; durations are exact reals.
 */
module Dashboard {
  import opened Wrappers
  import opened Text
  import opened Manifest

  // ---------------------------------------------------------------------------
  // audio_id: re.search(r'audio_(\d+)\.wav$', audio_filepath)
  // ---------------------------------------------------------------------------

  /** The length of the run of digits that ends `s`. */
  function TrailingDigits(s: string): (n: nat)
    ensures n <= |s|
    ensures forall k :: |s| - n <= k < |s| ==> IsDigit(s[k])
    ensures n < |s| ==> !IsDigit(s[|s| - n - 1])
  {
    if s == [] || !IsDigit(s[|s| - 1]) then 0 else 1 + TrailingDigits(s[..|s| - 1])
  }

  /** The id when `s` ends exactly with `audio_<digits>.wav`. */
  function IdAtEnd(s: string): Option<nat> {
    if !EndsWith(s, ".wav") then None
    else
      var stem := s[..|s| - 4];
      var n := TrailingDigits(stem);
      if n > 0 && EndsWith(stem[..|stem| - n], "audio_")
      then Some(DecimalValue(stem[|stem| - n..]))
      else None
  }

  /**
    The `audio_id` column. The search is not anchored at the start, and `$`
    also matches just before a final newline.
   */
  function AudioId(path: string): Option<nat> {
    if |path| > 0 && path[|path| - 1] == '\n' then IdAtEnd(path[..|path| - 1]) else IdAtEnd(path)
  }

  lemma TrailingDigitsOf(head: string, d: string)
    requires IsDecimal(d)
    requires head != [] && !IsDigit(head[|head| - 1])
    ensures TrailingDigits(head + d) == |d|
  {
    var s := head + d;
    assert forall k :: |head| <= k < |s| ==> s[k] == d[k - |head|];
    assert s[|head| - 1] == head[|head| - 1];
  }

  /** Any directory prefix followed by `audio_<digits>.wav` (and an optional final newline) yields the digits' value. */
  lemma {:induction false} AudioIdOfName(prefix: string, digits: string)
    requires IsDecimal(digits)
    ensures AudioId(prefix + "audio_" + digits + ".wav") == Some(DecimalValue(digits))
    ensures AudioId(prefix + "audio_" + digits + ".wav\n") == Some(DecimalValue(digits))
  {
    var head := prefix + "audio_";
    var s := head + digits + ".wav";
    var stem := s[..|s| - 4];
    assert stem == head + digits;
    TrailingDigitsOf(head, digits);
    assert stem[..|stem| - |digits|] == head;
    assert stem[|stem| - |digits|..] == digits;
    assert EndsWith(s, ".wav");
    var t := prefix + "audio_" + digits + ".wav\n";
    assert t == s + "\n";
    assert t[..|t| - 1] == s;
  }

  /** Conversely, a path yields an id only if it has that shape. */
  lemma {:induction false} AudioIdSound(path: string)
    requires AudioId(path).Some?
    ensures exists prefix, digits ::
      IsDecimal(digits) && DecimalValue(digits) == AudioId(path).value &&
      (path == prefix + "audio_" + digits + ".wav" || path == prefix + "audio_" + digits + ".wav\n")
  {
    if |path| > 0 && path[|path| - 1] == '\n' {
      var s := path[..|path| - 1];
      IdAtEndSound(s);
      var prefix, digits :| IsDecimal(digits) && DecimalValue(digits) == IdAtEnd(s).value
        && s == prefix + "audio_" + digits + ".wav";
      assert path == s + "\n";
      assert path == prefix + "audio_" + digits + ".wav\n";
    } else {
      IdAtEndSound(path);
    }
  }

  /** A newline-free string yields an id only if it ends with `audio_<digits>.wav`. */
  lemma IdAtEndSound(s: string)
    requires IdAtEnd(s).Some?
    ensures exists prefix, digits ::
      IsDecimal(digits) && DecimalValue(digits) == IdAtEnd(s).value && s == prefix + "audio_" + digits + ".wav"
  {
    var stem := s[..|s| - 4];
    assert s == stem + ".wav";
    var n := TrailingDigits(stem);
    var head := stem[..|stem| - n];
    var digits := stem[|stem| - n..];
    assert stem == head + digits;
    var prefix := head[..|head| - 6];
    assert head == prefix + "audio_";
    assert s == prefix + "audio_" + digits + ".wav";
  }

  /** An `.mp3` path never yields an id. */
  lemma Mp3HasNoId(path: string)
    requires EndsWith(path, ".mp3")
    ensures AudioId(path) == None
  {
    assert path[|path| - 1] == '3';
  }

  // ---------------------------------------------------------------------------
  // The reading loop: four parallel columns
  // ---------------------------------------------------------------------------

  /** Reads the manifest into the four columns, one entry per line, in line order. */
  method ReadManifest(lines: seq<ManifestRecord>)
    returns (audioFilepaths: seq<string>, audioIds: seq<Option<nat>>, durations: seq<real>, texts: seq<string>)
    ensures |audioFilepaths| == |audioIds| == |durations| == |texts| == |lines|
    ensures forall i :: 0 <= i < |lines| ==>
      && audioFilepaths[i] == lines[i].audioFilepath
      && audioIds[i] == AudioId(lines[i].audioFilepath)
      && durations[i] == lines[i].duration
      && texts[i] == lines[i].text
  {
    audioFilepaths, audioIds, durations, texts := [], [], [], [];
    for i := 0 to |lines|
      invariant |audioFilepaths| == |audioIds| == |durations| == |texts| == i
      invariant forall k :: 0 <= k < i ==>
        && audioFilepaths[k] == lines[k].audioFilepath
        && audioIds[k] == AudioId(lines[k].audioFilepath)
        && durations[k] == lines[k].duration
        && texts[k] == lines[k].text
    {
      var data := lines[i];
      audioFilepaths := audioFilepaths + [data.audioFilepath];
      durations := durations + [data.duration];
      texts := texts + [data.text];
      audioIds := audioIds + [AudioId(data.audioFilepath)];
    }
  }

  function DurationsOf(lines: seq<ManifestRecord>): seq<real> {
    seq(|lines|, i requires 0 <= i < |lines| => lines[i].duration)
  }

  function TextsOf(lines: seq<ManifestRecord>): seq<string> {
    seq(|lines|, i requires 0 <= i < |lines| => lines[i].text)
  }

  // ---------------------------------------------------------------------------
  // Per-utterance counts
  // ---------------------------------------------------------------------------

  /** Counts the starts of runs in one left-to-right pass: a class character after a non-class one. */
  function RunStarts(s: string, inRun: char -> bool, afterRun: bool): nat
    decreases |s|
  {
    if s == [] then 0
    else (if inRun(s[0]) && !afterRun then 1 else 0) + RunStarts(s[1..], inRun, inRun(s[0]))
  }

  lemma {:induction false} RunStartsInsideRun(s: string, inRun: char -> bool, n: nat)
    requires n <= |s|
    requires forall k :: 0 <= k < n ==> inRun(s[k])
    requires n < |s| ==> !inRun(s[n])
    requires n > 0
    ensures RunStarts(s[1..], inRun, true) == RunStarts(s[n..], inRun, false)
    decreases n
  {
    if n > 1 {
      assert s[1..][0] == s[1];
      assert s[1..][1..] == s[2..];
      RunStartsInsideRun(s[1..], inRun, n - 1);
      assert s[1..][n - 1..] == s[n..];
    } else if n < |s| {
      assert s[1..][0] == s[1] && !inRun(s[1]);
    }
  }

  /** `len(text.split())` is the number of places where a whitespace-free run begins. */
  lemma {:induction false} WordsCountIsRunStarts(s: string, inRun: char -> bool)
    ensures |Runs(s, inRun)| == RunStarts(s, inRun, false)
    decreases |s|
  {
    if s != [] {
      if !inRun(s[0]) {
        WordsCountIsRunStarts(s[1..], inRun);
      } else {
        var n := LeadingRun(s, inRun);
        WordsCountIsRunStarts(s[n..], inRun);
        RunStartsInsideRun(s, inRun, n);
      }
    }
  }

  /** `[len(text.split()) for text in texts]`. */
  function WordsCounts(texts: seq<string>): (r: seq<nat>)
    ensures |r| == |texts|
    ensures forall i :: 0 <= i < |texts| ==> r[i] == RunStarts(texts[i], NotSpace, false)
  {
    assert forall i :: 0 <= i < |texts| ==> |Words(texts[i])| == RunStarts(texts[i], NotSpace, false) by {
      forall i | 0 <= i < |texts| {
        WordsCountIsRunStarts(texts[i], NotSpace);
      }
    }
    seq(|texts|, i requires 0 <= i < |texts| => |Words(texts[i])|)
  }

  /** `[len(text) for text in texts]`. */
  function CharCounts(texts: seq<string>): (r: seq<nat>)
    ensures |r| == |texts|
  {
    seq(|texts|, i requires 0 <= i < |texts| => |texts[i]|)
  }

  // ---------------------------------------------------------------------------
  // Vocabulary and alphabet over the space-joined, lower-cased corpus
  // ---------------------------------------------------------------------------

  /** `set(re.findall(r'\b\w+\b', " ".join(texts).lower()))`. */
  function Vocabulary(texts: seq<string>): set<string> {
    var corpus := Lower(Join(" ", texts));
    set w | w in Runs(corpus, IsWordChar)
  }

  /** `set(" ".join(texts).lower().replace(" ", ""))`. */
  function Alphabet(texts: seq<string>): set<char> {
    var corpus := Lower(Join(" ", texts));
    set c | c in corpus && c != ' '
  }

  /**
    The vocabulary is the union of the word tokens of each utterance: joining
    on a space never glues a token of one utterance to the next.
   */
  lemma VocabularyPerUtterance(texts: seq<string>, w: string)
    ensures w in Vocabulary(texts) <==> exists i :: 0 <= i < |texts| && w in Runs(Lower(texts[i]), IsWordChar)
  {
    LowerJoin(texts);
    RunsOfJoinedTexts(LowerAll(texts), IsWordChar, w);
    if w in Vocabulary(texts) {
      var i :| 0 <= i < |texts| && w in Runs(LowerAll(texts)[i], IsWordChar);
      assert w in Runs(Lower(texts[i]), IsWordChar);
    }
    if exists i :: 0 <= i < |texts| && w in Runs(Lower(texts[i]), IsWordChar) {
      var i :| 0 <= i < |texts| && w in Runs(Lower(texts[i]), IsWordChar);
      assert w in Runs(LowerAll(texts)[i], IsWordChar);
    }
  }

  /** Every vocabulary token is a non-empty run of word characters with no upper-case ASCII letter. */
  lemma VocabularyTokens(texts: seq<string>, w: string)
    requires w in Vocabulary(texts)
    ensures w != []
    ensures forall j :: 0 <= j < |w| ==> IsWordChar(w[j]) && !('A' <= w[j] <= 'Z')
  {
    var corpus := Lower(Join(" ", texts));
    RunsShape(corpus, IsWordChar);
    RunsSubstrings(corpus, IsWordChar, w);
  }

  /**
    The alphabet is every character of every lower-cased utterance except the
    space; tabs, newlines and other whitespace are kept.
   */
  lemma AlphabetPerUtterance(texts: seq<string>, c: char)
    ensures c in Alphabet(texts) <==> c != ' ' && exists i :: 0 <= i < |texts| && c in Lower(texts[i])
  {
    LowerJoin(texts);
    InJoin(LowerAll(texts), c);
    if c in Alphabet(texts) {
      var i :| 0 <= i < |texts| && c in LowerAll(texts)[i];
      assert c in Lower(texts[i]);
    }
    if c != ' ' && exists i :: 0 <= i < |texts| && c in Lower(texts[i]) {
      var i :| 0 <= i < |texts| && c in Lower(texts[i]);
      assert c in LowerAll(texts)[i];
    }
  }

  // ---------------------------------------------------------------------------
  // Duration bins: pd.cut(durations, bins=edges, include_lowest=True)
  // ---------------------------------------------------------------------------

  const NumBins: nat := 10

  /** The smallest duration of a non-empty manifest (`min(durations)`). */
  function MinOf(s: seq<real>): (m: real)
    requires |s| > 0
    ensures m in s
    ensures forall k :: 0 <= k < |s| ==> m <= s[k]
  {
    if |s| == 1 then s[0]
    else
      var rest := MinOf(s[1..]);
      if s[0] <= rest then s[0] else rest
  }

  /** The largest duration of a non-empty manifest (`max(durations)`). */
  function MaxOf(s: seq<real>): (m: real)
    requires |s| > 0
    ensures m in s
    ensures forall k :: 0 <= k < |s| ==> s[k] <= m
  {
    if |s| == 1 then s[0]
    else
      var rest := MaxOf(s[1..]);
      if s[0] >= rest then s[0] else rest
  }

  /** `sum(durations)`. */
  function Sum(s: seq<real>): real {
    if s == [] then 0.0 else s[0] + Sum(s[1..])
  }

  /** `[lo + i * (hi - lo) / 10 for i in range(11)]`. */
  function BinEdges(lo: real, hi: real): (e: seq<real>)
    ensures |e| == NumBins + 1
  {
    seq(NumBins + 1, i requires 0 <= i <= NumBins => lo + (i as real) * (hi - lo) / (NumBins as real))
  }

  predicate StrictlyIncreasing(e: seq<real>) {
    forall i, j :: 0 <= i < j < |e| ==> e[i] < e[j]
  }

  /** Edge `i` lies `i` widths above the minimum, one width being a tenth of the range. */
  lemma BinEdgesLinear(lo: real, hi: real)
    ensures forall i :: 0 <= i <= NumBins ==> BinEdges(lo, hi)[i] == lo + (i as real) * ((hi - lo) / 10.0)
  {
  }

  /** Distinct edges are at least one positive width apart. */
  lemma BinEdgesIncreasing(lo: real, hi: real)
    requires lo < hi
    ensures StrictlyIncreasing(BinEdges(lo, hi))
  {
    var e := BinEdges(lo, hi);
    var w := (hi - lo) / 10.0;
    BinEdgesLinear(lo, hi);
    forall i, j | 0 <= i < j < |e| ensures e[i] < e[j] {
      assert e[j] - e[i] == ((j - i) as real) * w;
      assert ((j - i) as real) * w >= w;
    }
  }

  /** The edges run from the minimum to the maximum in ten equal steps. */
  lemma BinEdgesShape(lo: real, hi: real)
    ensures BinEdges(lo, hi)[0] == lo
    ensures BinEdges(lo, hi)[NumBins] == hi
    ensures forall i :: 0 <= i < NumBins ==> BinEdges(lo, hi)[i + 1] - BinEdges(lo, hi)[i] == (hi - lo) / 10.0
    ensures lo < hi ==> StrictlyIncreasing(BinEdges(lo, hi))
  {
    BinEdgesLinear(lo, hi);
    if lo < hi {
      BinEdgesIncreasing(lo, hi);
    }
  }

  /** The ten labels: each bin's lower edge, in minutes. */
  function BinLabels(edges: seq<real>): (labels: seq<real>)
    requires |edges| == NumBins + 1
    ensures |labels| == NumBins
    ensures forall i :: 0 <= i < NumBins ==> labels[i] * 60.0 == edges[i]
    ensures StrictlyIncreasing(edges) ==> StrictlyIncreasing(labels)
  {
    seq(NumBins, i requires 0 <= i < NumBins => edges[i] / 60.0)
  }

  /** numpy's `searchsorted(x, side="left")`: the number of leading edges below `x`. */
  function SearchSortedLeft(edges: seq<real>, x: real): (i: nat)
    ensures i <= |edges|
    ensures forall k :: 0 <= k < i ==> edges[k] < x
    ensures i < |edges| ==> x <= edges[i]
  {
    if edges == [] || x <= edges[0] then 0 else 1 + SearchSortedLeft(edges[1..], x)
  }

  /**
    The bin number pandas gives `x` when cutting with right-closed bins and
    `include_lowest`: `x` equal to the first edge goes to bin 0; anything
    outside the edges has no bin.
   */
  function Cut(edges: seq<real>, x: real): Option<nat>
    requires |edges| >= 1
  {
    var ids := if x == edges[0] then 1 else SearchSortedLeft(edges, x);
    if ids == 0 || ids == |edges| then None else Some(ids - 1)
  }

  /** Bin 0 is `[e0, e1]`; bin j > 0 is `(ej, ej+1]`. */
  predicate InBin(edges: seq<real>, x: real, j: nat)
    requires j + 1 < |edges|
  {
    if j == 0 then edges[0] <= x <= edges[1] else edges[j] < x <= edges[j + 1]
  }

  /** Over strictly increasing edges, the bin pandas picks is the interval that holds the value. */
  lemma CutIsInBin(edges: seq<real>, x: real, j: nat)
    requires |edges| >= 2 && StrictlyIncreasing(edges)
    ensures Cut(edges, x) == Some(j) <==> j + 1 < |edges| && InBin(edges, x, j)
  {
    var i := SearchSortedLeft(edges, x);
    if j + 1 < |edges| && InBin(edges, x, j) {
      if j == 0 && x != edges[0] {
        assert i == 1;
      } else if j > 0 {
        assert i == j + 1;
      }
    }
  }

  /** Every value from the first to the last edge lands in a bin, and so in exactly one. */
  lemma CutCovers(edges: seq<real>, x: real)
    requires |edges| >= 2 && StrictlyIncreasing(edges)
    requires edges[0] <= x <= edges[|edges| - 1]
    ensures Cut(edges, x).Some?
    ensures forall j: nat :: j + 1 < |edges| && InBin(edges, x, j) ==> j == Cut(edges, x).value
  {
    var i := SearchSortedLeft(edges, x);
    assert i < |edges|;
    forall j: nat | j + 1 < |edges| && InBin(edges, x, j) ensures j == Cut(edges, x).value {
      CutIsInBin(edges, x, j);
    }
  }

  /** What the binning needs of the edges: they span the durations and increase. */
  lemma BinEdgesSpan(lo: real, hi: real)
    requires lo < hi
    ensures BinEdges(lo, hi)[0] == lo && BinEdges(lo, hi)[NumBins] == hi
    ensures StrictlyIncreasing(BinEdges(lo, hi))
  {
    BinEdgesShape(lo, hi);
  }

  /** The shortest utterance is in the first bin. */
  lemma MinimumInFirstBin(lo: real, hi: real)
    requires lo < hi
    ensures Cut(BinEdges(lo, hi), lo) == Some(0)
  {
    BinEdgesShape(lo, hi);
  }

  // ---------------------------------------------------------------------------
  // The report
  // ---------------------------------------------------------------------------

  /** One row of the detailed table; `durationBin` indexes the report's bin labels. */
  datatype DetailedRow = DetailedRow(
    audioId: Option<nat>,
    audioFilepath: string,
    duration: real,
    text: string,
    wordsCount: nat,
    charCount: nat,
    durationBin: nat)

  datatype Summary = Summary(totalHours: real, totalUtterances: nat, vocabularySize: nat, alphabetSize: nat)

  datatype Report = Report(rows: seq<DetailedRow>, binLabels: seq<real>, summary: Summary)

  datatype StatsError =
    | EmptyManifest      // min() of an empty sequence
    | DuplicateBinEdges  // pd.cut refuses bins when every duration is the same

  /** The bin each duration falls in. */
  function AssignBins(edges: seq<real>, durations: seq<real>): (bins: seq<nat>)
    requires |edges| >= 2 && StrictlyIncreasing(edges)
    requires forall i :: 0 <= i < |durations| ==> edges[0] <= durations[i] <= edges[|edges| - 1]
    ensures |bins| == |durations|
    ensures forall i :: 0 <= i < |durations| ==>
      bins[i] + 1 < |edges| && InBin(edges, durations[i], bins[i]) && Cut(edges, durations[i]) == Some(bins[i])
  {
    seq(|durations|, i requires 0 <= i < |durations| =>
      CutCovers(edges, durations[i]);
      CutIsInBin(edges, durations[i], Cut(edges, durations[i]).value);
      Cut(edges, durations[i]).value)
  }

  /** The smallest and largest durations coincide exactly when every duration is the same. */
  lemma {:induction false} MinIsMaxIffConstant(s: seq<real>)
    requires |s| > 0
    ensures MinOf(s) == MaxOf(s) <==> forall i :: 0 <= i < |s| ==> s[i] == s[0]
  {
    if MinOf(s) == MaxOf(s) {
      forall i | 0 <= i < |s| ensures s[i] == s[0] {
        assert MinOf(s) <= s[i] <= MaxOf(s);
        assert MinOf(s) <= s[0] <= MaxOf(s);
      }
    }
  }

  /** What a detailed row holds for its manifest line, given the bin edges. */
  predicate RowOf(row: DetailedRow, line: ManifestRecord, edges: seq<real>)
    requires |edges| == NumBins + 1
  {
    && row.audioId == AudioId(line.audioFilepath)
    && row.audioFilepath == line.audioFilepath
    && row.duration == line.duration
    && row.text == line.text
    && row.wordsCount == |Words(line.text)|
    && row.charCount == |line.text|
    && row.durationBin < NumBins
    && InBin(edges, line.duration, row.durationBin)
  }

  /** The success-case ensures of `ProcessJsonl`: the report for a manifest whose durations are not all equal. */
  predicate IsReportOf(report: Report, lines: seq<ManifestRecord>)
    requires lines != []
    requires MinOf(DurationsOf(lines)) < MaxOf(DurationsOf(lines))
  {
    var edges := BinEdges(MinOf(DurationsOf(lines)), MaxOf(DurationsOf(lines)));
    && report.binLabels == BinLabels(edges)
    && |report.rows| == |lines|
    && (forall i :: 0 <= i < |lines| ==> RowOf(report.rows[i], lines[i], edges))
    && report.summary == SummaryOf(DurationsOf(lines), TextsOf(lines))
  }

  /** The summary: total hours, utterance count, vocabulary size and alphabet size. */
  function SummaryOf(durations: seq<real>, texts: seq<string>): Summary {
    Summary(Sum(durations) / 3600.0, |durations|, |Vocabulary(texts)|, |Alphabet(texts)|)
  }

  /** The detailed table: each line's columns, word and character counts, and duration bin. */
  method DetailedRows(lines: seq<ManifestRecord>, audioFilepaths: seq<string>, audioIds: seq<Option<nat>>,
                      durations: seq<real>, texts: seq<string>, edges: seq<real>)
    returns (rows: seq<DetailedRow>)
    requires |audioFilepaths| == |audioIds| == |durations| == |texts| == |lines|
    requires forall i :: 0 <= i < |lines| ==>
      && audioFilepaths[i] == lines[i].audioFilepath
      && audioIds[i] == AudioId(lines[i].audioFilepath)
      && durations[i] == lines[i].duration
      && texts[i] == lines[i].text
    requires |edges| == NumBins + 1 && StrictlyIncreasing(edges)
    requires forall i :: 0 <= i < |durations| ==> edges[0] <= durations[i] <= edges[NumBins]
    ensures |rows| == |lines|
    ensures forall i :: 0 <= i < |lines| ==> RowOf(rows[i], lines[i], edges)
  {
    var wordsCount := WordsCounts(texts);
    var charCount := CharCounts(texts);
    var bins := AssignBins(edges, durations);
    rows := seq(|lines|, i requires 0 <= i < |lines| =>
      DetailedRow(audioIds[i], audioFilepaths[i], durations[i], texts[i], wordsCount[i], charCount[i], bins[i]));
    forall i | 0 <= i < |lines| ensures RowOf(rows[i], lines[i], edges) {
      assert rows[i] == DetailedRow(audioIds[i], audioFilepaths[i], durations[i], texts[i], wordsCount[i], charCount[i], bins[i]);
    }
  }

  /** The binning and summing of `process_jsonl`, once the columns are read and the bins are known to exist. */
  method Tabulate(lines: seq<ManifestRecord>, audioFilepaths: seq<string>, audioIds: seq<Option<nat>>,
                  durations: seq<real>, texts: seq<string>)
    returns (report: Report)
    requires |audioFilepaths| == |audioIds| == |durations| == |texts| == |lines| > 0
    requires forall i :: 0 <= i < |lines| ==>
      && audioFilepaths[i] == lines[i].audioFilepath
      && audioIds[i] == AudioId(lines[i].audioFilepath)
      && durations[i] == lines[i].duration
      && texts[i] == lines[i].text
    requires MinOf(DurationsOf(lines)) < MaxOf(DurationsOf(lines))
    ensures IsReportOf(report, lines)
  {
    assert durations == DurationsOf(lines) && texts == TextsOf(lines);
    var edges := BinEdges(MinOf(durations), MaxOf(durations));
    DurationsWithinEdges(durations);
    var rows := DetailedRows(lines, audioFilepaths, audioIds, durations, texts, edges);
    report := Report(rows, BinLabels(edges), SummaryOf(durations, texts));
  }

  /** With distinct extremes, the edges are increasing and every duration lies between the first and the last. */
  lemma DurationsWithinEdges(durations: seq<real>)
    requires |durations| > 0 && MinOf(durations) < MaxOf(durations)
    ensures StrictlyIncreasing(BinEdges(MinOf(durations), MaxOf(durations)))
    ensures forall i :: 0 <= i < |durations| ==>
      BinEdges(MinOf(durations), MaxOf(durations))[0] <= durations[i] <= BinEdges(MinOf(durations), MaxOf(durations))[NumBins]
  {
    BinEdgesSpan(MinOf(durations), MaxOf(durations));
  }

  /**
    `process_jsonl`: the detailed rows (one per manifest line, in order) and the
    summary, or the error that stops the script.
   */
  method ProcessJsonl(lines: seq<ManifestRecord>) returns (r: Result<Report, StatsError>)
    ensures lines == [] <==> r == Failure(EmptyManifest)
    ensures r == Failure(DuplicateBinEdges) <==>
      lines != [] && forall i :: 0 <= i < |lines| ==> lines[i].duration == lines[0].duration
    ensures r.Success? ==>
      && lines != []
      && MinOf(DurationsOf(lines)) < MaxOf(DurationsOf(lines))
      && IsReportOf(r.value, lines)
  {
    var audioFilepaths, audioIds, durations, texts := ReadManifest(lines);
    assert durations == DurationsOf(lines);
    if |durations| == 0 {
      return Failure(EmptyManifest);
    }
    var lo := MinOf(durations);
    var hi := MaxOf(durations);
    MinIsMaxIffConstant(durations);
    assert lo == hi <==> forall i :: 0 <= i < |lines| ==> lines[i].duration == lines[0].duration by {
      assert forall i :: 0 <= i < |lines| ==> durations[i] == lines[i].duration;
    }
    if lo == hi {
      return Failure(DuplicateBinEdges);
    }
    var report := Tabulate(lines, audioFilepaths, audioIds, durations, texts);
    r := Success(report);
  }
}
