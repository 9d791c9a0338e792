/**
  Transcript normalisation (preprocess_transcript.py): `clean_text` lower-cases
  a transcript, deletes ASCII punctuation, splits it on whitespace, spells out
  every all-digit token and joins the tokens with single spaces; `process_pdfs`
  runs it over every `.pdf` of a folder and saves `<stem>.txt`.
  PDF text extraction and the number speller (`num2words`) are parameters.
 */
module Transcript {
  import opened Wrappers
  import opened Text
  import opened Paths

  /** `text.translate(str.maketrans("", "", string.punctuation))`: every punctuation character deleted. */
  function StripPunctuation(s: string): (r: string)
    ensures forall j :: 0 <= j < |r| ==> !IsPunct(r[j])
    decreases |s|
  {
    if s == [] then ""
    else (if IsPunct(s[0]) then "" else [s[0]]) + StripPunctuation(s[1..])
  }

  /** Deleting characters adds none: each character left was in the input. */
  lemma {:induction false} StripPunctuationFrom(s: string)
    ensures forall c :: c in StripPunctuation(s) ==> c in s
    decreases |s|
  {
    if s != [] {
      StripPunctuationFrom(s[1..]);
    }
  }

  lemma {:induction false} StripPunctuationAppend(a: string, b: string)
    ensures StripPunctuation(a + b) == StripPunctuation(a) + StripPunctuation(b)
    decreases |a|
  {
    if a != [] {
      var head := if IsPunct(a[0]) then "" else [a[0]];
      assert (a + b)[0] == a[0];
      assert (a + b)[1..] == a[1..] + b;
      assert StripPunctuation(a + b) == head + StripPunctuation(a[1..] + b);
      StripPunctuationAppend(a[1..], b);
      assert StripPunctuation(a) == head + StripPunctuation(a[1..]);
    } else {
      assert a + b == b;
    }
  }

  lemma {:induction false} StripPunctuationKeeps(s: string)
    requires forall j :: 0 <= j < |s| ==> !IsPunct(s[j])
    ensures StripPunctuation(s) == s
    decreases |s|
  {
    if s != [] {
      StripPunctuationKeeps(s[1..]);
    }
  }

  /** Lines 44-47: lower-case, then delete punctuation. */
  function Normalize(text: string): string {
    StripPunctuation(Lower(text))
  }

  /** `num2words(n)`, or None where it raises. */
  type Speller = nat -> Option<string>

  /** The replacement made for one token: an all-digit token is spelled out unless the speller fails. */
  function ConvertToken(word: string, spell: Speller): string {
    if IsDecimal(word) then
      match spell(DecimalValue(word))
      case Some(spelled) => spelled
      case None => word
    else word
  }

  /** The `words` list that `clean_text` builds before joining. */
  function CleanedWords(text: string, spell: Speller): seq<string> {
    var tokens := Words(Normalize(text));
    seq(|tokens|, i requires 0 <= i < |tokens| => ConvertToken(tokens[i], spell))
  }

  /** The string `clean_text` returns. */
  function Cleaned(text: string, spell: Speller): string {
    Join(" ", CleanedWords(text, spell))
  }

  /** `clean_text(text)`: the token loop appends one word per whitespace-separated token. */
  method CleanText(text: string, spell: Speller) returns (r: string)
    ensures r == Cleaned(text, spell)
  {
    var t := Lower(text);
    t := StripPunctuation(t);
    var tokens := Words(t);
    var words: seq<string> := [];
    for i := 0 to |tokens|
      invariant |words| == i
      invariant forall k :: 0 <= k < i ==> words[k] == ConvertToken(tokens[k], spell)
    {
      var word := tokens[i];
      if IsDecimal(word) {
        match spell(DecimalValue(word)) {
          case Some(spelled) => word := spelled;
          case None =>
        }
      }
      words := words + [word];
    }
    assert words == CleanedWords(text, spell);
    r := Join(" ", words);
  }

  /** The characters of the normalised text are neither punctuation nor upper-case ASCII. */
  lemma NormalizeChars(text: string)
    ensures forall j :: 0 <= j < |Normalize(text)| ==>
      !IsPunct(Normalize(text)[j]) && !('A' <= Normalize(text)[j] <= 'Z')
  {
    var n := Normalize(text);
    StripPunctuationFrom(Lower(text));
    forall j | 0 <= j < |n| ensures !('A' <= n[j] <= 'Z') {
      assert n[j] in Lower(text);
    }
  }

  /**
    One output word per token, in order: a token that is not all digits passes
    through unchanged, and is non-empty, whitespace-free, lower-case and free of
    punctuation; an all-digit token becomes its spelling, or stays when the
    speller fails.
   */
  lemma CleanedWordsSpec(text: string, spell: Speller)
    ensures |CleanedWords(text, spell)| == |Words(Normalize(text))|
    ensures forall i :: 0 <= i < |Words(Normalize(text))| ==>
      var token, word := Words(Normalize(text))[i], CleanedWords(text, spell)[i];
      && (!IsDecimal(token) ==> word == token)
      && (IsDecimal(token) && spell(DecimalValue(token)).Some? ==> word == spell(DecimalValue(token)).value)
      && (IsDecimal(token) && spell(DecimalValue(token)).None? ==> word == token)
    ensures forall i :: 0 <= i < |Words(Normalize(text))| && !IsDecimal(Words(Normalize(text))[i]) ==>
      var word := CleanedWords(text, spell)[i];
      && word != []
      && forall j :: 0 <= j < |word| ==> !IsSpace(word[j]) && !IsPunct(word[j]) && !('A' <= word[j] <= 'Z')
  {
    var n := Normalize(text);
    NormalizeChars(text);
    RunsShape(n, NotSpace);
    forall i | 0 <= i < |Words(n)|
      ensures forall j :: 0 <= j < |Words(n)[i]| ==> !IsPunct(Words(n)[i][j]) && !('A' <= Words(n)[i][j] <= 'Z')
    {
      RunsSubstrings(n, NotSpace, Words(n)[i]);
    }
  }

  /** Tokens that are already lower-case and free of punctuation survive normalisation once joined. */
  lemma NormalizeJoined(tokens: seq<string>)
    requires forall k :: 0 <= k < |tokens| ==>
      forall j :: 0 <= j < |tokens[k]| ==> !IsPunct(tokens[k][j]) && !('A' <= tokens[k][j] <= 'Z')
    ensures Normalize(Join(" ", tokens)) == Join(" ", tokens)
  {
    var once := Join(" ", tokens);
    forall j | 0 <= j < |once| ensures !IsPunct(once[j]) && !('A' <= once[j] <= 'Z') {
      InJoin(tokens, once[j]);
      if once[j] != ' ' {
        var k :| 0 <= k < |tokens| && once[j] in tokens[k];
        var m :| 0 <= m < |tokens[k]| && tokens[k][m] == once[j];
      }
    }
    LowerKeeps(once);
    StripPunctuationKeeps(once);
  }

  /** On text whose tokens are not all-digit, cleaning twice gives what cleaning once gives. */
  lemma CleanIdempotentWithoutNumbers(text: string, spell: Speller)
    requires forall i :: 0 <= i < |Words(Normalize(text))| ==> !IsDecimal(Words(Normalize(text))[i])
    ensures Cleaned(Cleaned(text, spell), spell) == Cleaned(text, spell)
  {
    var tokens := Words(Normalize(text));
    CleanedWordsSpec(text, spell);
    assert CleanedWords(text, spell) == tokens;
    var once := Join(" ", tokens);
    NormalizeJoined(tokens);
    RunsShape(Normalize(text), NotSpace);
    RunsOfJoin(tokens, NotSpace);
    assert Words(Normalize(once)) == tokens;
    assert CleanedWords(once, spell) == tokens;
  }

  /**
    When every spelling is non-empty and has no surrounding whitespace, the
    output has none either, and it is empty exactly when there are no tokens.
   */
  lemma CleanedIsTrimmed(text: string, spell: Speller)
    requires forall v :: spell(v).Some? ==>
      spell(v).value != [] && !IsSpace(spell(v).value[0]) && !IsSpace(spell(v).value[|spell(v).value| - 1])
    ensures Cleaned(text, spell) == [] <==> Words(Normalize(text)) == []
    ensures Cleaned(text, spell) != [] ==>
      !IsSpace(Cleaned(text, spell)[0]) && !IsSpace(Cleaned(text, spell)[|Cleaned(text, spell)| - 1])
  {
    var tokens := Words(Normalize(text));
    RunsShape(Normalize(text), NotSpace);
    CleanedWordsSpec(text, spell);
    JoinEnds(CleanedWords(text, spell));
  }

  /** Text made only of whitespace and punctuation cleans to the empty string. */
  lemma CleanBlank(text: string, spell: Speller)
    requires forall j :: 0 <= j < |text| ==> IsSpace(text[j]) || IsPunct(text[j])
    ensures Cleaned(text, spell) == ""
  {
    var n := Normalize(text);
    StripPunctuationFrom(Lower(text));
    forall j | 0 <= j < |n| ensures !NotSpace(n[j]) {
      assert n[j] in Lower(text);
      var k :| 0 <= k < |text| && Lower(text)[k] == n[j];
      assert LowerChar(text[k]) == text[k];
    }
    RunsOfGap(n, NotSpace);
  }

  lemma NormalizeDigitsAroundPunct(a: string, p: char, b: string)
    requires IsDecimal(a) && IsDecimal(b) && IsPunct(p)
    ensures Normalize(a + [p] + b) == a + b
  {
    var s := a + [p] + b;
    assert Lower(s) == s by {
      forall j | 0 <= j < |s| ensures !('A' <= s[j] <= 'Z') {
        if j < |a| {
          assert s[j] == a[j];
        } else if j > |a| {
          assert s[j] == b[j - |a| - 1];
        }
      }
      LowerKeeps(s);
    }
    assert StripPunctuation(s) == StripPunctuation(a + [p]) + StripPunctuation(b) by {
      StripPunctuationAppend(a + [p], b);
    }
    assert StripPunctuation(a + [p]) == StripPunctuation(a) + StripPunctuation([p]) by {
      StripPunctuationAppend(a, [p]);
    }
    assert StripPunctuation([p]) == "";
    StripPunctuationKeeps(a);
    StripPunctuationKeeps(b);
  }

  /**
    Punctuation goes before the split, so digits separated by punctuation
    (`"1,000"`) become one number token.
   */
  lemma PunctuationJoinsDigits(a: string, p: char, b: string, spell: Speller)
    requires IsDecimal(a) && IsDecimal(b) && IsPunct(p)
    ensures Cleaned(a + [p] + b, spell) == ConvertToken(a + b, spell)
  {
    var s := a + [p] + b;
    var ab := a + b;
    NormalizeDigitsAroundPunct(a, p, b);
    assert forall j :: 0 <= j < |ab| ==> IsDigit(ab[j]);
    RunsOfRun(ab, NotSpace);
    assert Words(Normalize(s)) == [ab];
    assert CleanedWords(s, spell) == [ConvertToken(ab, spell)];
  }

  lemma CleanThousands(spell: Speller)
    ensures Cleaned("1,000", spell) == ConvertToken("1000", spell)
  {
    assert "1,000" == "1" + [','] + "000";
    assert "1000" == "1" + "000";
    PunctuationJoinsDigits("1", ',', "000", spell);
  }

  // ---------------------------------------------------------------------------
  // process_pdfs: one `<stem>.txt` per `.pdf`
  // ---------------------------------------------------------------------------

  /** `os.path.splitext(filename)[0] + ".txt"`. */
  function TxtName(filename: string): string {
    SplitExtRoot(filename) + ".txt"
  }

  /** A `.pdf` name whose stem is not only dots becomes `<stem>.txt`. */
  lemma TxtNameOfPdf(stem: string, k: nat)
    requires '/' !in stem
    requires k < |stem| && stem[k] != '.'
    ensures TxtName(stem + ".pdf") == stem + ".txt"
  {
    var p := stem + ".pdf";
    assert p[|stem|] == '.';
    assert LastIndexOf(p, '.') == |stem|;
    assert forall j :: 0 <= j < |p| ==> p[j] != '/' by {
      assert forall j :: 0 <= j < |stem| ==> p[j] == stem[j];
    }
    assert p[k] != '.';
    assert p[..|stem|] == stem;
  }

  /** The folder left once every `.pdf` of the listing, from position onwards, has been cleaned and saved. */
  function SavePdfs(listing: seq<string>, inputFolder: string, outputFolder: string,
                    extract: string -> string, spell: Speller, files: map<string, string>): map<string, string>
    decreases |listing|
  {
    if listing == [] then files
    else
      var filename := listing[0];
      var files' := if EndsWith(filename, ".pdf")
        then files[JoinPath(outputFolder, TxtName(filename)) :=
                   Cleaned(extract(JoinPath(inputFolder, filename)), spell)]
        else files;
      SavePdfs(listing[1..], inputFolder, outputFolder, extract, spell, files')
  }

  /**
    `process_pdfs`: for each `.pdf` name in the listing, in order, extract the
    text, clean it and save it under the `.txt` name in the output folder.
   */
  method ProcessPdfs(listing: seq<string>, inputFolder: string, outputFolder: string,
                     extract: string -> string, spell: Speller, files: map<string, string>)
    returns (written: map<string, string>)
    ensures written == SavePdfs(listing, inputFolder, outputFolder, extract, spell, files)
  {
    written := files;
    for i := 0 to |listing|
      invariant SavePdfs(listing[i..], inputFolder, outputFolder, extract, spell, written)
             == SavePdfs(listing, inputFolder, outputFolder, extract, spell, files)
    {
      assert listing[i..][1..] == listing[i + 1..];
      var filename := listing[i];
      if EndsWith(filename, ".pdf") {
        var pdfPath := JoinPath(inputFolder, filename);
        var outputPath := JoinPath(outputFolder, TxtName(filename));
        var rawText := extract(pdfPath);
        var cleanedText := CleanText(rawText, spell);
        written := written[outputPath := cleanedText];
      }
    }
  }

  /**
    Only `.pdf` names are processed: every file added or overwritten is the
    `.txt` of some `.pdf` of the listing and holds its cleaned text, and every
    `.pdf` of the listing has its `.txt` saved.
   */
  lemma {:induction false} SavePdfsSpec(listing: seq<string>, inputFolder: string, outputFolder: string,
                                        extract: string -> string, spell: Speller, files: map<string, string>)
    ensures var result := SavePdfs(listing, inputFolder, outputFolder, extract, spell, files);
      && (forall path :: path in result && (path !in files || result[path] != files[path]) ==>
            exists i :: 0 <= i < |listing| && EndsWith(listing[i], ".pdf")
              && path == JoinPath(outputFolder, TxtName(listing[i]))
              && result[path] == Cleaned(extract(JoinPath(inputFolder, listing[i])), spell))
      && (forall i :: 0 <= i < |listing| && EndsWith(listing[i], ".pdf") ==>
            JoinPath(outputFolder, TxtName(listing[i])) in result)
    decreases |listing|
  {
    if listing != [] {
      var filename := listing[0];
      var files' := if EndsWith(filename, ".pdf")
        then files[JoinPath(outputFolder, TxtName(filename)) :=
                   Cleaned(extract(JoinPath(inputFolder, filename)), spell)]
        else files;
      SavePdfsSpec(listing[1..], inputFolder, outputFolder, extract, spell, files');
      SavePdfsKeeps(listing[1..], inputFolder, outputFolder, extract, spell, files');
      var result := SavePdfs(listing, inputFolder, outputFolder, extract, spell, files);
      forall path | path in result && (path !in files || result[path] != files[path])
        ensures exists i :: (0 <= i < |listing| && EndsWith(listing[i], ".pdf")
              && path == JoinPath(outputFolder, TxtName(listing[i]))
              && result[path] == Cleaned(extract(JoinPath(inputFolder, listing[i])), spell))
      {
        if path in files' && result[path] == files'[path] {
          assert listing[0] == filename;
        } else {
          var i :| 0 <= i < |listing[1..]| && EndsWith(listing[1..][i], ".pdf")
              && path == JoinPath(outputFolder, TxtName(listing[1..][i]))
              && result[path] == Cleaned(extract(JoinPath(inputFolder, listing[1..][i])), spell);
          assert listing[i + 1] == listing[1..][i];
        }
      }
      forall i | 0 <= i < |listing| && EndsWith(listing[i], ".pdf")
        ensures JoinPath(outputFolder, TxtName(listing[i])) in result
      {
        if i > 0 {
          assert listing[i] == listing[1..][i - 1];
        }
      }
    }
  }

  /** Saving never removes a file from the output folder. */
  lemma {:induction false} SavePdfsKeeps(listing: seq<string>, inputFolder: string, outputFolder: string,
                                         extract: string -> string, spell: Speller, files: map<string, string>)
    ensures files.Keys <= SavePdfs(listing, inputFolder, outputFolder, extract, spell, files).Keys
    decreases |listing|
  {
    if listing != [] {
      var filename := listing[0];
      var files' := if EndsWith(filename, ".pdf")
        then files[JoinPath(outputFolder, TxtName(filename)) :=
                   Cleaned(extract(JoinPath(inputFolder, filename)), spell)]
        else files;
      SavePdfsKeeps(listing[1..], inputFolder, outputFolder, extract, spell, files');
    }
  }
}
