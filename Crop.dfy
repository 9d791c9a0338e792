/**
  Cropping (`crop_last_10_seconds` in crop_audio.py): every `.wav` file of
  the input folder is copied to the same name in the output folder without
  its last ten seconds; the header parameters are copied unchanged.
  The folder listing and the WAV reader are inputs; the output folder is a
  map from path to the WAV written there. Float arithmetic is exact here.
 */
module Crop {
  import opened Wrappers
  import opened Text
  import opened Paths

  /** One frame: a sample for every channel, `sampwidth` bytes each. */
  type Frame = seq<bv8>

  /** A WAV file as the `wave` module sees it; `nframes` is `|frames|`. */
  datatype Wav = Wav(nchannels: nat, sampwidth: nat, framerate: nat, frames: seq<Frame>)

  /** The seconds dropped from the end of every file. */
  const CropSeconds: nat := 10

  // ---------------------------------------------------------------------------
  // One file
  // ---------------------------------------------------------------------------

  /** The number of frames kept: all but the last `CropSeconds` seconds, and none of a shorter file. */
  function CropFrames(nframes: nat, framerate: nat): nat
    requires framerate > 0
  {
    if nframes > CropSeconds * framerate then nframes - CropSeconds * framerate else 0
  }

  function Max0(x: int): nat {
    if x > 0 then x else 0
  }

  /**
    The source's float formula `max(0, int((nframes / framerate - 10) * framerate))`
    gives the same count over exact reals; `Floor` and truncation agree once
    negative values are clamped to 0.
   */
  lemma CropFramesExact(nframes: nat, framerate: nat)
    requires framerate > 0
    ensures CropFrames(nframes, framerate)
         == Max0((((nframes as real) / (framerate as real) - 10.0) * (framerate as real)).Floor)
  {
    var n, fr := nframes as real, framerate as real;
    calc {
      (n / fr - 10.0) * fr;
      (n / fr) * fr - 10.0 * fr;
      { assert (n / fr) * fr == n; }
      n - 10.0 * fr;
      (nframes - CropSeconds * framerate) as real;
    }
  }

  /** The kept count never exceeds the file, is zero exactly for files of at most ten seconds, and otherwise drops exactly ten seconds of frames. */
  lemma CropFramesBounds(nframes: nat, framerate: nat)
    requires framerate > 0
    ensures CropFrames(nframes, framerate) <= nframes
    ensures CropFrames(nframes, framerate) == 0 <==> nframes <= CropSeconds * framerate
    ensures nframes > CropSeconds * framerate ==>
      (CropFrames(nframes, framerate) as real) / (framerate as real)
        == (nframes as real) / (framerate as real) - CropSeconds as real
  {
    if nframes > CropSeconds * framerate {
      var k, n, fr := CropFrames(nframes, framerate) as real, nframes as real, framerate as real;
      assert k == n - 10.0 * fr;
      assert k / fr == n / fr - (10.0 * fr) / fr;
    }
  }

  /** What is written for one readable input: its parameters and the frames read after `rewind()`. */
  function Cropped(w: Wav): Wav
    requires w.framerate > 0
  {
    CropFramesBounds(|w.frames|, w.framerate);
    Wav(w.nchannels, w.sampwidth, w.framerate, w.frames[..CropFrames(|w.frames|, w.framerate)])
  }

  /**
    The output copies channel count, sample width and frame rate, holds a
    prefix of the input frames, is empty for a file of ten seconds or less,
    and is otherwise exactly ten seconds shorter.
   */
  lemma CroppedSpec(w: Wav)
    requires w.framerate > 0
    ensures var c := Cropped(w);
      && c.nchannels == w.nchannels && c.sampwidth == w.sampwidth && c.framerate == w.framerate
      && |c.frames| <= |w.frames| && c.frames == w.frames[..|c.frames|]
      && (|w.frames| <= CropSeconds * w.framerate ==> c.frames == [])
      && (|w.frames| > CropSeconds * w.framerate ==> |c.frames| + CropSeconds * w.framerate == |w.frames|)
  {
    CropFramesBounds(|w.frames|, w.framerate);
  }

  // ---------------------------------------------------------------------------
  // The loop over the input folder
  // ---------------------------------------------------------------------------

  /** Why a run stops: `wave.open` raised, or the division by a zero frame rate did. Neither is caught. */
  datatype CropError = Unreadable(filename: string) | ZeroFramerate(filename: string)

  /** The output folder after a run, and the error that ended it early, if any. */
  datatype CropRun = CropRun(files: map<string, Wav>, stopped: Option<CropError>)

  /**
    The files left in the output folder after processing `listing` in order,
    starting from `files`. `readWav` is `wave.open` on a path: None when it raises.
   */
  function CropAll(listing: seq<string>, inputFolder: string, outputFolder: string,
                   readWav: string -> Option<Wav>, files: map<string, Wav>): CropRun
    decreases |listing|
  {
    if listing == [] then CropRun(files, None)
    else
      var filename := listing[0];
      if !EndsWith(filename, ".wav") then CropAll(listing[1..], inputFolder, outputFolder, readWav, files)
      else
        match readWav(JoinPath(inputFolder, filename))
        case None => CropRun(files, Some(Unreadable(filename)))
        case Some(w) =>
          if w.framerate == 0 then CropRun(files, Some(ZeroFramerate(filename)))
          else CropAll(listing[1..], inputFolder, outputFolder, readWav,
                       files[JoinPath(outputFolder, filename) := Cropped(w)])
  }

  /** `crop_last_10_seconds`: crops file after file until the listing ends or a file cannot be processed. */
  method CropLast10Seconds(listing: seq<string>, inputFolder: string, outputFolder: string,
                           readWav: string -> Option<Wav>, existing: map<string, Wav>)
    returns (files: map<string, Wav>, stopped: Option<CropError>)
    ensures CropRun(files, stopped) == CropAll(listing, inputFolder, outputFolder, readWav, existing)
  {
    files := existing;
    for i := 0 to |listing|
      invariant CropAll(listing[i..], inputFolder, outputFolder, readWav, files)
             == CropAll(listing, inputFolder, outputFolder, readWav, existing)
    {
      var filename := listing[i];
      assert listing[i..][1..] == listing[i + 1..];
      if EndsWith(filename, ".wav") {
        var inputPath := JoinPath(inputFolder, filename);
        var outputPath := JoinPath(outputFolder, filename);
        var wavFile := readWav(inputPath);
        if wavFile.None? {
          return files, Some(Unreadable(filename));
        }
        var w := wavFile.value;
        var nChannels, sampwidth, framerate, nFrames := w.nchannels, w.sampwidth, w.framerate, |w.frames|;
        if framerate == 0 {
          return files, Some(ZeroFramerate(filename));
        }
        var duration := (nFrames as real) / (framerate as real);
        var cropFrames := Max0(((duration - 10.0) * (framerate as real)).Floor);
        CropFramesExact(nFrames, framerate);
        CropFramesBounds(nFrames, framerate);
        var framesToSave := w.frames[..cropFrames];
        assert Wav(nChannels, sampwidth, framerate, framesToSave) == Cropped(w);
        files := files[outputPath := Wav(nChannels, sampwidth, framerate, framesToSave)];
      }
    }
    stopped := None;
  }

  // ---------------------------------------------------------------------------
  // What a run does to the output folder
  // ---------------------------------------------------------------------------

  /** The listing entry `filename` is a `.wav` file that can be read and has a non-zero frame rate. */
  predicate Croppable(inputFolder: string, readWav: string -> Option<Wav>, filename: string) {
    && EndsWith(filename, ".wav")
    && readWav(JoinPath(inputFolder, filename)).Some?
    && readWav(JoinPath(inputFolder, filename)).value.framerate > 0
  }

  /**
    A run stops early exactly when some `.wav` entry cannot be processed, and
    then names the first such entry; every `.wav` entry before it was
    processed.
   */
  lemma {:induction false} CropAllStops(listing: seq<string>, inputFolder: string, outputFolder: string,
                                        readWav: string -> Option<Wav>, files: map<string, Wav>)
    ensures var run := CropAll(listing, inputFolder, outputFolder, readWav, files);
      && (run.stopped == None <==>
            forall i :: 0 <= i < |listing| && EndsWith(listing[i], ".wav") ==> Croppable(inputFolder, readWav, listing[i]))
      && (run.stopped.Some? ==> exists i :: 0 <= i < |listing| && FirstFailure(listing, inputFolder, readWav, i, run.stopped.value))
    decreases |listing|
  {
    if listing != [] {
      var rest := listing[1..];
      var filename := listing[0];
      var next := if Croppable(inputFolder, readWav, filename)
        then files[JoinPath(outputFolder, filename) := Cropped(readWav(JoinPath(inputFolder, filename)).value)]
        else files;
      CropAllStops(rest, inputFolder, outputFolder, readWav, next);
      var run := CropAll(listing, inputFolder, outputFolder, readWav, files);
      if EndsWith(filename, ".wav") && !Croppable(inputFolder, readWav, filename) {
        assert FirstFailure(listing, inputFolder, readWav, 0, run.stopped.value);
      } else {
        assert run == CropAll(rest, inputFolder, outputFolder, readWav, next);
        assert forall i :: 0 < i < |listing| ==> listing[i] == rest[i - 1];
        if run.stopped.Some? {
          var j :| 0 <= j < |rest| && FirstFailure(rest, inputFolder, readWav, j, run.stopped.value);
          assert FirstFailure(listing, inputFolder, readWav, j + 1, run.stopped.value);
        }
      }
    }
  }

  /** Entry `i` is the first `.wav` entry that cannot be processed, and `e` says why. */
  predicate FirstFailure(listing: seq<string>, inputFolder: string, readWav: string -> Option<Wav>, i: int, e: CropError)
    requires 0 <= i < |listing|
  {
    && e.filename == listing[i]
    && EndsWith(listing[i], ".wav")
    && !Croppable(inputFolder, readWav, listing[i])
    && (e.Unreadable? <==> readWav(JoinPath(inputFolder, listing[i])).None?)
    && (forall k :: 0 <= k < i && EndsWith(listing[k], ".wav") ==> Croppable(inputFolder, readWav, listing[k]))
  }

  /**
    The output folder only gains files: each new or changed path is the
    output folder joined with a processed `.wav` entry, holding that entry's
    cropped audio; every other file keeps its contents.
   */
  lemma {:induction false} CropAllWrites(listing: seq<string>, inputFolder: string, outputFolder: string,
                                         readWav: string -> Option<Wav>, files: map<string, Wav>)
    ensures var out := CropAll(listing, inputFolder, outputFolder, readWav, files).files;
      && files.Keys <= out.Keys
      && forall p :: p in out ==>
           (p in files && out[p] == files[p]) || WrittenFrom(listing, inputFolder, outputFolder, readWav, p, out[p])
    decreases |listing|
  {
    if listing != [] {
      var rest := listing[1..];
      var filename := listing[0];
      assert forall i :: 0 < i < |listing| ==> listing[i] == rest[i - 1];
      if Croppable(inputFolder, readWav, filename) {
        var w := readWav(JoinPath(inputFolder, filename)).value;
        var next := files[JoinPath(outputFolder, filename) := Cropped(w)];
        CropAllWrites(rest, inputFolder, outputFolder, readWav, next);
        var out := CropAll(listing, inputFolder, outputFolder, readWav, files).files;
        forall p | p in out && !(p in files && out[p] == files[p])
          ensures WrittenFrom(listing, inputFolder, outputFolder, readWav, p, out[p])
        {
          if WrittenFrom(rest, inputFolder, outputFolder, readWav, p, out[p]) {
            var j :| 0 <= j < |rest| && WrittenAt(rest, inputFolder, outputFolder, readWav, p, out[p], j);
            assert WrittenAt(listing, inputFolder, outputFolder, readWav, p, out[p], j + 1);
          } else {
            assert WrittenAt(listing, inputFolder, outputFolder, readWav, p, out[p], 0);
          }
        }
      } else if !EndsWith(filename, ".wav") {
        CropAllWrites(rest, inputFolder, outputFolder, readWav, files);
        var out := CropAll(listing, inputFolder, outputFolder, readWav, files).files;
        forall p | p in out && !(p in files && out[p] == files[p])
          ensures WrittenFrom(listing, inputFolder, outputFolder, readWav, p, out[p])
        {
          var j :| 0 <= j < |rest| && WrittenAt(rest, inputFolder, outputFolder, readWav, p, out[p], j);
          assert WrittenAt(listing, inputFolder, outputFolder, readWav, p, out[p], j + 1);
        }
      }
    }
  }

  /** `p` is the output path of entry `i`, a processable `.wav` file whose cropped audio is `w`. */
  predicate WrittenAt(listing: seq<string>, inputFolder: string, outputFolder: string,
                      readWav: string -> Option<Wav>, p: string, w: Wav, i: int)
  {
    && 0 <= i < |listing|
    && Croppable(inputFolder, readWav, listing[i])
    && p == JoinPath(outputFolder, listing[i])
    && w == Cropped(readWav(JoinPath(inputFolder, listing[i])).value)
  }

  predicate WrittenFrom(listing: seq<string>, inputFolder: string, outputFolder: string,
                        readWav: string -> Option<Wav>, p: string, w: Wav)
  {
    exists i :: 0 <= i < |listing| && WrittenAt(listing, inputFolder, outputFolder, readWav, p, w, i)
  }

  /**
    A run that does not stop early writes, under the same file name in the
    output folder, the cropped audio of every `.wav` entry of the listing.
   */
  lemma {:induction false} CropAllComplete(listing: seq<string>, inputFolder: string, outputFolder: string,
                                           readWav: string -> Option<Wav>, files: map<string, Wav>, i: int)
    requires 0 <= i < |listing| && EndsWith(listing[i], ".wav")
    requires forall k :: 0 <= k < |listing| ==> '/' !in listing[k]
    requires CropAll(listing, inputFolder, outputFolder, readWav, files).stopped == None
    ensures Croppable(inputFolder, readWav, listing[i])
    ensures var out := CropAll(listing, inputFolder, outputFolder, readWav, files).files;
      && JoinPath(outputFolder, listing[i]) in out
      && out[JoinPath(outputFolder, listing[i])] == Cropped(readWav(JoinPath(inputFolder, listing[i])).value)
    decreases |listing|
  {
    var rest := listing[1..];
    var filename := listing[0];
    CropAllStops(listing, inputFolder, outputFolder, readWav, files);
    var next := if Croppable(inputFolder, readWav, filename)
      then files[JoinPath(outputFolder, filename) := Cropped(readWav(JoinPath(inputFolder, filename)).value)]
      else files;
    assert CropAll(listing, inputFolder, outputFolder, readWav, files) == CropAll(rest, inputFolder, outputFolder, readWav, next);
    if i > 0 {
      assert listing[i] == rest[i - 1];
      CropAllComplete(rest, inputFolder, outputFolder, readWav, next, i - 1);
    } else {
      var p := JoinPath(outputFolder, filename);
      forall k | 0 <= k < |rest| && Croppable(inputFolder, readWav, rest[k]) && JoinPath(outputFolder, rest[k]) == p
        ensures Cropped(readWav(JoinPath(inputFolder, rest[k])).value) == next[p]
      {
        assert rest[k] == listing[k + 1];
        JoinPathInjective(outputFolder, rest[k], filename);
      }
      CropAllKeeps(rest, inputFolder, outputFolder, readWav, next, p);
    }
  }

  /** A file the rest of the run writes again gets the same contents, since equal names read the same input. */
  lemma {:induction false} CropAllKeeps(listing: seq<string>, inputFolder: string, outputFolder: string,
                                        readWav: string -> Option<Wav>, files: map<string, Wav>, p: string)
    requires p in files
    requires forall i :: (0 <= i < |listing| && Croppable(inputFolder, readWav, listing[i])
                          && JoinPath(outputFolder, listing[i]) == p) ==>
               Cropped(readWav(JoinPath(inputFolder, listing[i])).value) == files[p]
    ensures var out := CropAll(listing, inputFolder, outputFolder, readWav, files).files;
      p in out && out[p] == files[p]
    decreases |listing|
  {
    if listing != [] {
      var rest := listing[1..];
      var filename := listing[0];
      assert forall i :: 0 < i < |listing| ==> listing[i] == rest[i - 1];
      if Croppable(inputFolder, readWav, filename) {
        var next := files[JoinPath(outputFolder, filename) := Cropped(readWav(JoinPath(inputFolder, filename)).value)];
        CropAllKeeps(rest, inputFolder, outputFolder, readWav, next, p);
      } else if !EndsWith(filename, ".wav") {
        CropAllKeeps(rest, inputFolder, outputFolder, readWav, files, p);
      }
    }
  }
}
