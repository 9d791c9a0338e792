/**
  Manifest assembly (`generate_manifest` in create_manifest.py): every
  `audio_<index>.wav|.mp3` of the audio folder is paired with
  `document_<index>.txt` of the transcription folder, and one manifest record
  is written per pair whose duration and transcript could be read. Missing
  transcripts and per-file failures are reported and skipped.
  The folder listing, the transcript files and the duration probe are inputs.
 */
module Manifest {
  import opened Wrappers
  import opened Text
  import opened Paths

  /** One manifest line: the JSON keys `audio_filepath`, `duration` and `text`. */
  datatype ManifestRecord = ManifestRecord(audioFilepath: string, duration: real, text: string)

  /** What the loop prints instead of writing a record. */
  datatype Notice =
    | MissingTranscript(audioFile: string)  // "Warning: No transcription found for ..."
    | ProcessingError(audioFile: string)    // "Error processing ...": the probe or the read raised

  // ---------------------------------------------------------------------------
  // Which files take part, and their transcript names
  // ---------------------------------------------------------------------------

  /** The filter of line 32: names starting with `audio_` and ending with `.wav` or `.mp3`. */
  predicate IsAudioName(f: string) {
    StartsWith(f, "audio_") && (EndsWith(f, ".wav") || EndsWith(f, ".mp3"))
  }

  /** The audio files of the listing, in listing order. */
  function AudioFiles(listing: seq<string>): seq<string>
    decreases |listing|
  {
    if listing == [] then []
    else
      var last := listing[|listing| - 1];
      AudioFiles(listing[..|listing| - 1]) + (if IsAudioName(last) then [last] else [])
  }

  /** The filter keeps exactly the audio names of the listing, each at most as often as it is listed. */
  lemma AudioFilesSpec(listing: seq<string>)
    ensures forall f :: f in AudioFiles(listing) <==> f in listing && IsAudioName(f)
    ensures |AudioFiles(listing)| <= |listing|
    ensures (forall i, j :: 0 <= i < j < |listing| ==> listing[i] != listing[j]) ==>
      forall i, j :: 0 <= i < j < |AudioFiles(listing)| ==> AudioFiles(listing)[i] != AudioFiles(listing)[j]
  {
    AudioFilesMembers(listing);
    if forall i, j :: 0 <= i < j < |listing| ==> listing[i] != listing[j] {
      AudioFilesDistinct(listing);
    }
  }

  lemma {:induction false} AudioFilesMembers(listing: seq<string>)
    ensures forall f :: f in AudioFiles(listing) <==> f in listing && IsAudioName(f)
    ensures |AudioFiles(listing)| <= |listing|
    decreases |listing|
  {
    if listing != [] {
      var init := listing[..|listing| - 1];
      AudioFilesMembers(init);
      assert listing == init + [listing[|listing| - 1]];
    }
  }

  lemma {:induction false} AudioFilesDistinct(listing: seq<string>)
    requires forall i, j :: 0 <= i < j < |listing| ==> listing[i] != listing[j]
    ensures forall i, j :: 0 <= i < j < |AudioFiles(listing)| ==> AudioFiles(listing)[i] != AudioFiles(listing)[j]
    decreases |listing|
  {
    if listing != [] {
      var init := listing[..|listing| - 1];
      var last := listing[|listing| - 1];
      AudioFilesDistinct(init);
      AudioFilesMembers(init);
      assert last !in init by {
        forall k | 0 <= k < |init| ensures init[k] != last {
          assert init[k] == listing[k];
        }
      }
      assert last !in AudioFiles(init);
    }
  }

  /** The filter keeps listing order: filtering a concatenation concatenates the filtered parts. */
  lemma {:induction false} AudioFilesAppend(a: seq<string>, b: seq<string>)
    ensures AudioFiles(a + b) == AudioFiles(a) + AudioFiles(b)
    decreases |b|
  {
    if b != [] {
      var init := b[..|b| - 1];
      assert (a + b)[..|a + b| - 1] == a + init;
      assert (a + b)[|a + b| - 1] == b[|b| - 1];
      AudioFilesAppend(a, init);
    } else {
      assert a + b == a;
    }
  }

  /** `audio_file.split('_')[1].split('.')[0]`. */
  function TranscriptIndex(audioFile: string): string
    requires StartsWith(audioFile, "audio_")
  {
    var rest := audioFile[6..];
    assert audioFile == "audio" + ['_'] + rest;
    SplitOnAt("audio", '_', rest);
    SplitOnNone("audio", '_');
    SplitOn(SplitOn(audioFile, '_')[1], '.')[0]
  }

  /** `f"document_{index}.txt"`. */
  function TranscriptName(index: string): string {
    "document_" + index + ".txt"
  }

  /**
    The index is the text after `audio_` up to the first `_` or `.` (or the end):
    it holds neither character and is followed by one of them or by nothing.
   */
  lemma TranscriptIndexSpec(audioFile: string)
    requires StartsWith(audioFile, "audio_")
    ensures var index, rest := TranscriptIndex(audioFile), audioFile[6..];
      && |index| <= |rest| && rest[..|index|] == index
      && '_' !in index && '.' !in index
      && (|index| < |rest| ==> rest[|index|] == '_' || rest[|index|] == '.')
  {
    var rest := audioFile[6..];
    assert audioFile == "audio" + ['_'] + rest;
    SplitOnAt("audio", '_', rest);
    SplitOnNone("audio", '_');
    var part := SplitOn(rest, '_')[0];
    assert SplitOn(audioFile, '_')[1] == part;
    SplitOnHead(rest, '_');
    var index := SplitOn(part, '.')[0];
    SplitOnHead(part, '.');
    assert index == TranscriptIndex(audioFile);
    assert forall k :: 0 <= k < |index| ==> index[k] == part[k];
    assert rest[..|index|] == index;
    if |index| < |rest| && |index| == |part| {
      assert rest[|part|] == '_';
    }
  }

  /** The part after `audio_`, when nothing in it is an underscore. */
  lemma UnderscorePart(rest: string)
    requires '_' !in rest
    ensures SplitOn("audio_" + rest, '_') == ["audio", rest]
  {
    assert "audio_" + rest == "audio" + ['_'] + rest;
    SplitOnAt("audio", '_', rest);
    SplitOnNone("audio", '_');
    SplitOnNone(rest, '_');
  }

  /** The part before the first dot, when the extension starts with it. */
  lemma DotPart(index: string, ext: string)
    requires '.' !in index
    requires ext == [] || ext[0] == '.'
    ensures SplitOn(index + ext, '.')[0] == index
  {
    SplitOnNone(index, '.');
    if ext == [] {
      assert index + ext == index;
    } else {
      assert index + ext == index + ['.'] + ext[1..];
      SplitOnAt(index, '.', ext[1..]);
    }
  }

  /** For a name `audio_<index><ext>` whose index holds no `_` or `.` and whose extension starts with `.`, the index comes back. */
  lemma TranscriptIndexOf(index: string, ext: string)
    requires '_' !in index && '.' !in index
    requires '_' !in ext && (ext == [] || ext[0] == '.')
    ensures TranscriptIndex("audio_" + index + ext) == index
  {
    var rest := index + ext;
    assert "audio_" + index + ext == "audio_" + rest;
    UnderscorePart(rest);
    DotPart(index, ext);
  }

  /** The index is not checked to be numeric: `audio_x.mp3` pairs with `document_x.txt`. */
  lemma NonNumericIndex()
    ensures TranscriptName(TranscriptIndex("audio_" + "x" + ".mp3")) == "document_x.txt"
  {
    TranscriptIndexOf("x", ".mp3");
  }

  /** Nothing makes the index unique: `audio_<i>.wav` and `audio_<i>.mp3` share one transcript. */
  lemma SharedTranscript(index: string)
    requires '_' !in index && '.' !in index
    ensures TranscriptIndex("audio_" + index + ".wav") == TranscriptIndex("audio_" + index + ".mp3") == index
  {
    TranscriptIndexOf(index, ".wav");
    TranscriptIndexOf(index, ".mp3");
  }

  // ---------------------------------------------------------------------------
  // One audio file
  // ---------------------------------------------------------------------------

  /**
    The body of the loop for one audio file. `transcripts` maps each existing
    transcription path to its content, or to None when reading it raises;
    `probe` is `get_audio_duration`, None when it raises.
   */
  function PairAudioFile(audioFolder: string, transcriptionFolder: string, audioFile: string,
                         transcripts: map<string, Option<string>>, probe: string -> Option<real>)
    : Result<ManifestRecord, Notice>
    requires StartsWith(audioFile, "audio_")
  {
    var index := TranscriptIndex(audioFile);
    var audioPath := JoinPath(audioFolder, audioFile);
    var transcriptionPath := JoinPath(transcriptionFolder, TranscriptName(index));
    if transcriptionPath !in transcripts then Failure(MissingTranscript(audioFile))
    else
      match probe(audioPath)
      case None => Failure(ProcessingError(audioFile))
      case Some(duration) =>
        match transcripts[transcriptionPath]
        case None => Failure(ProcessingError(audioFile))
        case Some(content) => Success(ManifestRecord(audioPath, duration, Strip(content)))
  }

  /**
    A record is written exactly when the paired transcript exists and both the
    probe and the read succeed; it holds the joined audio path, the probed
    duration and the stripped transcript.
   */
  lemma PairAudioFileSpec(audioFolder: string, transcriptionFolder: string, audioFile: string,
                          transcripts: map<string, Option<string>>, probe: string -> Option<real>)
    requires StartsWith(audioFile, "audio_")
    ensures var audioPath := JoinPath(audioFolder, audioFile);
      var transcriptionPath := JoinPath(transcriptionFolder, TranscriptName(TranscriptIndex(audioFile)));
      var r := PairAudioFile(audioFolder, transcriptionFolder, audioFile, transcripts, probe);
      && (r == Failure(MissingTranscript(audioFile)) <==> transcriptionPath !in transcripts)
      && (r.Success? <==>
            transcriptionPath in transcripts && probe(audioPath).Some? && transcripts[transcriptionPath].Some?)
      && (r.Success? ==>
            r.value == ManifestRecord(audioPath, probe(audioPath).value, Strip(transcripts[transcriptionPath].value)))
      && (r.Failure? ==> r.error.audioFile == audioFile)
  {
  }

  // ---------------------------------------------------------------------------
  // The loop
  // ---------------------------------------------------------------------------

  /** The records written for the given audio files, in their order. */
  function Written(audioFolder: string, transcriptionFolder: string, files: seq<string>,
                   transcripts: map<string, Option<string>>, probe: string -> Option<real>): seq<ManifestRecord>
    requires forall i :: 0 <= i < |files| ==> StartsWith(files[i], "audio_")
    decreases |files|
  {
    if files == [] then []
    else
      var init := files[..|files| - 1];
      Written(audioFolder, transcriptionFolder, init, transcripts, probe) +
      match PairAudioFile(audioFolder, transcriptionFolder, files[|files| - 1], transcripts, probe)
      case Success(record) => [record]
      case Failure(_) => []
  }

  /** The warnings and errors printed for the given audio files, in their order. */
  function Notices(audioFolder: string, transcriptionFolder: string, files: seq<string>,
                   transcripts: map<string, Option<string>>, probe: string -> Option<real>): seq<Notice>
    requires forall i :: 0 <= i < |files| ==> StartsWith(files[i], "audio_")
    decreases |files|
  {
    if files == [] then []
    else
      var init := files[..|files| - 1];
      Notices(audioFolder, transcriptionFolder, init, transcripts, probe) +
      match PairAudioFile(audioFolder, transcriptionFolder, files[|files| - 1], transcripts, probe)
      case Success(_) => []
      case Failure(notice) => [notice]
  }

  /**
    `generate_manifest`: the records written to the manifest file, line by
    line, and the notices printed for the skipped files.
   */
  method GenerateManifest(listing: seq<string>, audioFolder: string, transcriptionFolder: string,
                          transcripts: map<string, Option<string>>, probe: string -> Option<real>)
    returns (manifest: seq<ManifestRecord>, notices: seq<Notice>)
    ensures forall i :: 0 <= i < |AudioFiles(listing)| ==> StartsWith(AudioFiles(listing)[i], "audio_")
    ensures manifest == Written(audioFolder, transcriptionFolder, AudioFiles(listing), transcripts, probe)
    ensures notices == Notices(audioFolder, transcriptionFolder, AudioFiles(listing), transcripts, probe)
  {
    var audioFiles := AudioFiles(listing);
    AudioFilesSpec(listing);
    assert forall i :: 0 <= i < |audioFiles| ==> audioFiles[i] in listing && IsAudioName(audioFiles[i]);
    manifest, notices := [], [];
    for i := 0 to |audioFiles|
      invariant manifest == Written(audioFolder, transcriptionFolder, audioFiles[..i], transcripts, probe)
      invariant notices == Notices(audioFolder, transcriptionFolder, audioFiles[..i], transcripts, probe)
    {
      var outcome := ProcessAudioFile(audioFolder, transcriptionFolder, audioFiles[i], transcripts, probe);
      OutcomesStep(audioFolder, transcriptionFolder, audioFiles, transcripts, probe, i);
      match outcome {
        case Success(record) => manifest := manifest + [record];
        case Failure(notice) => notices := notices + [notice];
      }
    }
    assert audioFiles[..|audioFiles|] == audioFiles;
  }

  /** The `try` block of the loop for one audio file: the record to write, or the notice to print. */
  method ProcessAudioFile(audioFolder: string, transcriptionFolder: string, audioFile: string,
                          transcripts: map<string, Option<string>>, probe: string -> Option<real>)
    returns (outcome: Result<ManifestRecord, Notice>)
    requires StartsWith(audioFile, "audio_")
    ensures outcome == PairAudioFile(audioFolder, transcriptionFolder, audioFile, transcripts, probe)
  {
    var index := TranscriptIndex(audioFile);
    var transcriptionFile := TranscriptName(index);
    var audioPath := JoinPath(audioFolder, audioFile);
    var transcriptionPath := JoinPath(transcriptionFolder, transcriptionFile);
    if transcriptionPath !in transcripts {
      return Failure(MissingTranscript(audioFile));
    }
    var duration := probe(audioPath);
    var content := transcripts[transcriptionPath];
    if duration.Some? && content.Some? {
      outcome := Success(ManifestRecord(audioPath, duration.value, Strip(content.value)));
    } else {
      outcome := Failure(ProcessingError(audioFile));
    }
  }

  /** One more file appends its record or its notice. */
  lemma OutcomesStep(audioFolder: string, transcriptionFolder: string, files: seq<string>,
                     transcripts: map<string, Option<string>>, probe: string -> Option<real>, i: nat)
    requires i < |files|
    requires forall k :: 0 <= k < |files| ==> StartsWith(files[k], "audio_")
    ensures var r := PairAudioFile(audioFolder, transcriptionFolder, files[i], transcripts, probe);
      && Written(audioFolder, transcriptionFolder, files[..i + 1], transcripts, probe)
         == Written(audioFolder, transcriptionFolder, files[..i], transcripts, probe) + (if r.Success? then [r.value] else [])
      && Notices(audioFolder, transcriptionFolder, files[..i + 1], transcripts, probe)
         == Notices(audioFolder, transcriptionFolder, files[..i], transcripts, probe) + (if r.Failure? then [r.error] else [])
  {
    assert files[..i + 1][..i] == files[..i];
  }

  /** Each considered audio file yields exactly one record or one notice. */
  lemma {:induction false} OneOutcomePerFile(audioFolder: string, transcriptionFolder: string, files: seq<string>,
                                             transcripts: map<string, Option<string>>, probe: string -> Option<real>)
    requires forall i :: 0 <= i < |files| ==> StartsWith(files[i], "audio_")
    ensures |Written(audioFolder, transcriptionFolder, files, transcripts, probe)|
          + |Notices(audioFolder, transcriptionFolder, files, transcripts, probe)| == |files|
    decreases |files|
  {
    if files != [] {
      OneOutcomePerFile(audioFolder, transcriptionFolder, files[..|files| - 1], transcripts, probe);
    }
  }

  /** Records keep the order of the listing: the records of a concatenation are the concatenated records. */
  lemma {:induction false} WrittenAppend(audioFolder: string, transcriptionFolder: string, a: seq<string>, b: seq<string>,
                                         transcripts: map<string, Option<string>>, probe: string -> Option<real>)
    requires forall i :: 0 <= i < |a| ==> StartsWith(a[i], "audio_")
    requires forall i :: 0 <= i < |b| ==> StartsWith(b[i], "audio_")
    ensures forall i :: 0 <= i < |a + b| ==> StartsWith((a + b)[i], "audio_")
    ensures Written(audioFolder, transcriptionFolder, a + b, transcripts, probe)
         == Written(audioFolder, transcriptionFolder, a, transcripts, probe)
          + Written(audioFolder, transcriptionFolder, b, transcripts, probe)
    decreases |b|
  {
    assert forall i :: 0 <= i < |a + b| ==> StartsWith((a + b)[i], "audio_") by {
      assert forall i :: 0 <= i < |a + b| ==> (a + b)[i] == if i < |a| then a[i] else b[i - |a|];
    }
    if b == [] {
      assert a + b == a;
    } else {
      var init := b[..|b| - 1];
      assert (a + b)[..|a + b| - 1] == a + init;
      assert (a + b)[|a + b| - 1] == b[|b| - 1];
      WrittenAppend(audioFolder, transcriptionFolder, a, init, transcripts, probe);
    }
  }

  /** How many records name the given audio path. */
  function CountPath(records: seq<ManifestRecord>, path: string): nat
    decreases |records|
  {
    if records == [] then 0
    else
      CountPath(records[..|records| - 1], path) + (if records[|records| - 1].audioFilepath == path then 1 else 0)
  }

  lemma CountPathAppend(records: seq<ManifestRecord>, extra: seq<ManifestRecord>, path: string)
    requires |extra| <= 1
    ensures CountPath(records + extra, path)
         == CountPath(records, path) + (if |extra| == 1 && extra[0].audioFilepath == path then 1 else 0)
  {
    if |extra| == 1 {
      assert (records + extra)[..|records|] == records;
    } else {
      assert records + extra == records;
    }
  }

  /**
    Pairing correctness: over distinct audio file names, the manifest holds
    exactly one record for a file whose transcript exists and whose probe and
    read succeed, and none for any other file of the listing.
   */
  lemma {:induction false} PairingCorrect(audioFolder: string, transcriptionFolder: string, files: seq<string>,
                                          transcripts: map<string, Option<string>>, probe: string -> Option<real>,
                                          f: string)
    requires forall i :: 0 <= i < |files| ==> StartsWith(files[i], "audio_")
    requires Distinct(files)
    requires StartsWith(f, "audio_")
    ensures CountPath(Written(audioFolder, transcriptionFolder, files, transcripts, probe), JoinPath(audioFolder, f))
         == if f in files && PairAudioFile(audioFolder, transcriptionFolder, f, transcripts, probe).Success? then 1 else 0
    decreases |files|
  {
    var path := JoinPath(audioFolder, f);
    if files == [] {
      assert Written(audioFolder, transcriptionFolder, files, transcripts, probe) == [];
    } else {
      var init := files[..|files| - 1];
      var last := files[|files| - 1];
      assert files == init + [last];
      DistinctInit(init, last);
      PairingCorrect(audioFolder, transcriptionFolder, init, transcripts, probe, f);
      var r := PairAudioFile(audioFolder, transcriptionFolder, last, transcripts, probe);
      var extra := match r case Success(record) => [record] case Failure(_) => [];
      CountPathAppend(Written(audioFolder, transcriptionFolder, init, transcripts, probe), extra, path);
      RecordPath(audioFolder, transcriptionFolder, last, transcripts, probe);
      if r.Success? && r.value.audioFilepath == path {
        AudioPathInjective(audioFolder, last, f);
      }
      if f != last {
        assert f in files <==> f in init;
      }
    }
  }

  /** A record's path is the audio folder joined with its file name. */
  lemma RecordPath(audioFolder: string, transcriptionFolder: string, audioFile: string,
                   transcripts: map<string, Option<string>>, probe: string -> Option<real>)
    requires StartsWith(audioFile, "audio_")
    ensures var r := PairAudioFile(audioFolder, transcriptionFolder, audioFile, transcripts, probe);
      r.Success? ==> r.value.audioFilepath == JoinPath(audioFolder, audioFile)
  {
  }

  /** Two audio names joined to the same folder give the same path only if they are equal. */
  lemma AudioPathInjective(audioFolder: string, a: string, b: string)
    requires StartsWith(a, "audio_") && StartsWith(b, "audio_")
    requires JoinPath(audioFolder, a) == JoinPath(audioFolder, b)
    ensures a == b
  {
    assert a[0] == "audio_"[0] && b[0] == "audio_"[0];
    JoinPathInjective(audioFolder, a, b);
  }

  /** No name occurs twice. */
  predicate Distinct(names: seq<string>) {
    forall i, j :: 0 <= i < j < |names| ==> names[i] != names[j]
  }

  /** Without repeats, the earlier names have no repeats either and do not hold the last one. */
  lemma DistinctInit(init: seq<string>, last: string)
    requires Distinct(init + [last])
    ensures Distinct(init)
    ensures last !in init
  {
    var files := init + [last];
    forall k | 0 <= k < |init| ensures init[k] != last {
      assert init[k] == files[k] && last == files[|init|];
    }
    forall i, j | 0 <= i < j < |init| ensures init[i] != init[j] {
      assert init[i] == files[i] && init[j] == files[j];
    }
  }

}
