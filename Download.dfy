/**
  Transcript downloading (`download_file` and `download_transcripts` in
  download_transcript.py): each collected Google Drive share link is turned
  into a direct-download URL, and a `200` response is saved as
  `transcript_<position>.pdf` in the output directory.
  The HTTP request is a parameter (`fetch`, None when `requests` raises); the
  output directory is a map from path to the bytes written there.
 */
module Download {
  import opened Wrappers
  import opened Text
  import opened Paths

  /** What `requests.get` returns: the status code and the streamed body. */
  datatype Response = Response(statusCode: int, content: seq<bv8>)

  /** What `download_file` does with one link, after the message it prints. */
  datatype DownloadOutcome =
    | InvalidLink                                         // "Invalid Google Drive link"
    | Raised                                              // "Error downloading": the split or the request raised
    | HttpFailure(statusCode: int)                        // "Failed to download ...: HTTP <code>"
    | Downloaded(outputPath: string, content: seq<bv8>)   // "Downloaded: <path>"

  const DriveHost := "drive.google.com"
  const ExportPrefix := "https://drive.google.com/uc?export=download&id="
  const TranscriptPrefix := "transcript"

  // ---------------------------------------------------------------------------
  // Names and URLs
  // ---------------------------------------------------------------------------

  /** `link.split("/")[-2]`: the second-to-last segment, or None where indexing raises. */
  function FileId(link: string): Option<string> {
    var parts := SplitOn(link, '/');
    if |parts| < 2 then None else Some(parts[|parts| - 2])
  }

  /** The segment between the last two slashes is the file id. */
  lemma FileIdOf(front: string, fileId: string, last: string)
    requires '/' !in fileId && '/' !in last
    ensures FileId(front + "/" + fileId + "/" + last) == Some(fileId)
  {
    var tail := fileId + ['/'] + last;
    assert front + "/" + fileId + "/" + last == front + ['/'] + tail;
    SplitOnAt(front, '/', tail);
    SplitOnAt(fileId, '/', last);
    SplitOnNone(fileId, '/');
    SplitOnNone(last, '/');
  }

  /** The split has a second-to-last segment exactly when the link holds a slash. */
  lemma FileIdNone(link: string)
    ensures FileId(link).None? <==> '/' !in link
  {
    if '/' in link {
      var k :| 0 <= k < |link| && link[k] == '/';
      assert link == link[..k] + ['/'] + link[k + 1..];
      SplitOnAt(link[..k], '/', link[k + 1..]);
    } else {
      SplitOnNone(link, '/');
    }
  }

  /** A share link `https://drive.google.com/file/d/<id>/view` yields `<id>`. */
  lemma ShareLinkFileId(fileId: string)
    requires '/' !in fileId
    ensures FileId("https://drive.google.com/file/d/" + fileId + "/view") == Some(fileId)
  {
    FileIdOf("https://drive.google.com/file/d", fileId, "view");
    assert "https://drive.google.com/file/d" + "/" + fileId + "/" + "view"
        == "https://drive.google.com/file/d/" + fileId + "/view";
  }

  /** `f"https://drive.google.com/uc?export=download&id={file_id}"`. */
  function DownloadUrl(fileId: string): string {
    ExportPrefix + fileId
  }

  /** The URL determines the file id it was built from. */
  lemma DownloadUrlInjective(a: string, b: string)
    requires DownloadUrl(a) == DownloadUrl(b)
    ensures a == b
  {
    assert a == DownloadUrl(a)[|ExportPrefix|..];
    assert b == DownloadUrl(b)[|ExportPrefix|..];
  }

  /** `f"{file_prefix}_{idx}.pdf"`. */
  function OutputName(filePrefix: string, idx: nat): string {
    filePrefix + "_" + DecimalString(idx) + ".pdf"
  }

  /**
    Link `i` is saved as `transcript_<i>.pdf`: the name is `transcript_`, then
    digits that read back as `i`, then `.pdf`; the first ones are
    `transcript_0.pdf`, `transcript_1.pdf`, ..., `transcript_10.pdf`.
   */
  lemma TranscriptNames(i: nat)
    ensures var name := OutputName(TranscriptPrefix, i);
      && StartsWith(name, "transcript_") && EndsWith(name, ".pdf")
      && IsDecimal(name[11..|name| - 4]) && DecimalValue(name[11..|name| - 4]) == i
    ensures OutputName(TranscriptPrefix, 0) == "transcript_0.pdf"
    ensures OutputName(TranscriptPrefix, 1) == "transcript_1.pdf"
    ensures OutputName(TranscriptPrefix, 10) == "transcript_10.pdf"
  {
    var name := OutputName(TranscriptPrefix, i);
    assert name == "transcript_" + DecimalString(i) + ".pdf";
    assert name[11..|name| - 4] == DecimalString(i);
    DecimalRoundTrip(i);
  }

  /** Different positions give different output paths, so no download overwrites another of the same run. */
  lemma OutputPathInjective(folderPath: string, filePrefix: string, i: nat, j: nat)
    requires filePrefix == [] || filePrefix[0] != '/'
    requires JoinPath(folderPath, OutputName(filePrefix, i)) == JoinPath(folderPath, OutputName(filePrefix, j))
    ensures i == j
  {
    var a, b := OutputName(filePrefix, i), OutputName(filePrefix, j);
    assert a == [] || a[0] != '/' by {
      if filePrefix == [] { assert a[0] == '_'; }
    }
    assert b == [] || b[0] != '/' by {
      if filePrefix == [] { assert b[0] == '_'; }
    }
    JoinPathInjective(folderPath, a, b);
    var n := |filePrefix| + 1;
    assert a[n..|a| - 4] == DecimalString(i);
    assert b[n..|b| - 4] == DecimalString(j);
    DecimalStringInjective(i, j);
  }

  // ---------------------------------------------------------------------------
  // One link
  // ---------------------------------------------------------------------------

  /** `download_file`: what happens to one link, given how the request for a URL turns out. */
  function DownloadFile(link: string, folderPath: string, filePrefix: string, idx: nat,
                        fetch: string -> Option<Response>): DownloadOutcome
  {
    if !Contains(link, DriveHost) then InvalidLink
    else
      match FileId(link)
      case None => Raised
      case Some(fileId) =>
        var outputPath := JoinPath(folderPath, OutputName(filePrefix, idx));
        match fetch(DownloadUrl(fileId))
        case None => Raised
        case Some(response) =>
          if response.statusCode == 200 then Downloaded(outputPath, response.content)
          else HttpFailure(response.statusCode)
  }

  /** The output directory after one outcome: only a download writes, at its path. */
  function Save(files: map<string, seq<bv8>>, outcome: DownloadOutcome): map<string, seq<bv8>> {
    match outcome
    case Downloaded(outputPath, content) => files[outputPath := content]
    case _ => files
  }

  /**
    A link is saved exactly when it is a Drive link with a file id and the
    request for that id's export URL answers `200`; the file is
    `<folder>/<prefix>_<idx>.pdf` and holds the response body.
   */
  lemma DownloadFileSpec(link: string, folderPath: string, filePrefix: string, idx: nat,
                         fetch: string -> Option<Response>)
    ensures var outcome := DownloadFile(link, folderPath, filePrefix, idx, fetch);
      && (outcome == InvalidLink <==> !Contains(link, DriveHost))
      && (outcome.Downloaded? <==>
            && Contains(link, DriveHost)
            && FileId(link).Some?
            && fetch(DownloadUrl(FileId(link).value)).Some?
            && fetch(DownloadUrl(FileId(link).value)).value.statusCode == 200)
      && (outcome.Downloaded? ==>
            && outcome.outputPath == JoinPath(folderPath, OutputName(filePrefix, idx))
            && outcome.content == fetch(DownloadUrl(FileId(link).value)).value.content)
      && (outcome.HttpFailure? ==> outcome.statusCode != 200)
  {
  }

  /**
    A link without `drive.google.com` makes no request: the outcome is the
    same whatever the network would answer.
   */
  lemma InvalidLinkNoRequest(link: string, folderPath: string, filePrefix: string, idx: nat,
                             fetch1: string -> Option<Response>, fetch2: string -> Option<Response>)
    requires !Contains(link, DriveHost)
    ensures DownloadFile(link, folderPath, filePrefix, idx, fetch1) == DownloadFile(link, folderPath, filePrefix, idx, fetch2)
    ensures Save(map[], DownloadFile(link, folderPath, filePrefix, idx, fetch1)) == map[]
  {
  }

  /** A Drive link without a slash raises at the split, before any request, and writes nothing. */
  lemma SlashlessLinkRaises(link: string, folderPath: string, filePrefix: string, idx: nat,
                            fetch: string -> Option<Response>)
    requires Contains(link, DriveHost) && '/' !in link
    ensures DownloadFile(link, folderPath, filePrefix, idx, fetch) == Raised
  {
    FileIdNone(link);
  }

  /** The only URL requested is the export URL of the link's file id. */
  lemma OnlyExportUrlRequested(link: string, folderPath: string, filePrefix: string, idx: nat,
                               fetch1: string -> Option<Response>, fetch2: string -> Option<Response>)
    requires Contains(link, DriveHost) && FileId(link).Some?
    requires fetch1(DownloadUrl(FileId(link).value)) == fetch2(DownloadUrl(FileId(link).value))
    ensures DownloadFile(link, folderPath, filePrefix, idx, fetch1) == DownloadFile(link, folderPath, filePrefix, idx, fetch2)
  {
  }

  // ---------------------------------------------------------------------------
  // All links
  // ---------------------------------------------------------------------------

  /** The output directory after downloading `links` in order, link `i` as `transcript_<i>.pdf`. */
  function DownloadAll(links: seq<string>, folderPath: string, fetch: string -> Option<Response>,
                       files: map<string, seq<bv8>>): map<string, seq<bv8>>
    decreases |links|
  {
    if links == [] then files
    else
      var n := |links| - 1;
      Save(DownloadAll(links[..n], folderPath, fetch, files),
           DownloadFile(links[n], folderPath, TranscriptPrefix, n, fetch))
  }

  /** The path link `i` is saved under. */
  function TranscriptPath(folderPath: string, i: nat): string {
    JoinPath(folderPath, OutputName(TranscriptPrefix, i))
  }

  /** After the loop, `transcript_<i>.pdf` holds the body of link `i` whenever that link downloaded. */
  lemma {:induction false} DownloadAllSaved(links: seq<string>, folderPath: string, fetch: string -> Option<Response>,
                                            files: map<string, seq<bv8>>, i: nat)
    requires i < |links| && DownloadFile(links[i], folderPath, TranscriptPrefix, i, fetch).Downloaded?
    ensures var out := DownloadAll(links, folderPath, fetch, files);
      && TranscriptPath(folderPath, i) in out
      && out[TranscriptPath(folderPath, i)] == DownloadFile(links[i], folderPath, TranscriptPrefix, i, fetch).content
    decreases |links|
  {
    var n := |links| - 1;
    var init := links[..n];
    var outcome := DownloadFile(links[n], folderPath, TranscriptPrefix, n, fetch);
    DownloadFileSpec(links[n], folderPath, TranscriptPrefix, n, fetch);
    if i < n {
      assert init[i] == links[i];
      DownloadAllSaved(init, folderPath, fetch, files, i);
      if outcome.Downloaded? && outcome.outputPath == TranscriptPath(folderPath, i) {
        OutputPathInjective(folderPath, TranscriptPrefix, i, n);
      }
    }
  }

  /** After the loop, every path that no link downloaded to is as before. */
  lemma {:induction false} DownloadAllUntouched(links: seq<string>, folderPath: string, fetch: string -> Option<Response>,
                                                files: map<string, seq<bv8>>, p: string)
    requires !SavedTo(links, folderPath, fetch, p)
    ensures var out := DownloadAll(links, folderPath, fetch, files);
      (p in out <==> p in files) && (p in files ==> out[p] == files[p])
    decreases |links|
  {
    if links != [] {
      var n := |links| - 1;
      var init := links[..n];
      forall i | 0 <= i < n ensures !SavedAt(init, folderPath, fetch, p, i) {
        assert init[i] == links[i];
        assert !SavedAt(links, folderPath, fetch, p, i);
      }
      DownloadAllUntouched(init, folderPath, fetch, files, p);
      DownloadFileSpec(links[n], folderPath, TranscriptPrefix, n, fetch);
      assert !SavedAt(links, folderPath, fetch, p, n);
    }
  }

  /** Link `i` downloaded, to path `p`. */
  predicate SavedAt(links: seq<string>, folderPath: string, fetch: string -> Option<Response>, p: string, i: int) {
    && 0 <= i < |links|
    && DownloadFile(links[i], folderPath, TranscriptPrefix, i, fetch).Downloaded?
    && TranscriptPath(folderPath, i) == p
  }

  predicate SavedTo(links: seq<string>, folderPath: string, fetch: string -> Option<Response>, p: string) {
    exists i :: 0 <= i < |links| && SavedAt(links, folderPath, fetch, p, i)
  }

  // ---------------------------------------------------------------------------
  // The downloader object
  // ---------------------------------------------------------------------------

  /** `NPTELTranscriptsDownloader`: the output directory, the course page and the links collected from it. */
  class NptelTranscriptsDownloader {
    var outputDir: string
    var courseUrl: string
    var transcriptsLinks: seq<string>

    constructor(outputDir: string, courseUrl: string)
      ensures this.outputDir == outputDir && this.courseUrl == courseUrl
      ensures transcriptsLinks == []
    {
      this.outputDir := outputDir;
      this.courseUrl := courseUrl;
      transcriptsLinks := [];
    }

    /** The append in `fetch_transcripts_links`: one more link, after the ones already collected. */
    method AddTranscriptLink(link: string)
      modifies this
      ensures transcriptsLinks == old(transcriptsLinks) + [link]
      ensures outputDir == old(outputDir) && courseUrl == old(courseUrl)
    {
      transcriptsLinks := transcriptsLinks + [link];
    }

    /**
      `download_transcripts`: `download_file` for every collected link with
      prefix `transcript` and the link's position; returns the output
      directory afterwards and what happened to each link.
     */
    method DownloadTranscripts(fetch: string -> Option<Response>, existing: map<string, seq<bv8>>)
      returns (files: map<string, seq<bv8>>, outcomes: seq<DownloadOutcome>)
      ensures files == DownloadAll(transcriptsLinks, outputDir, fetch, existing)
      ensures |outcomes| == |transcriptsLinks|
      ensures forall i :: 0 <= i < |transcriptsLinks| ==>
        outcomes[i] == DownloadFile(transcriptsLinks[i], outputDir, TranscriptPrefix, i, fetch)
    {
      files, outcomes := existing, [];
      for idx := 0 to |transcriptsLinks|
        invariant files == DownloadAll(transcriptsLinks[..idx], outputDir, fetch, existing)
        invariant |outcomes| == idx
        invariant forall i :: 0 <= i < idx ==>
          outcomes[i] == DownloadFile(transcriptsLinks[i], outputDir, TranscriptPrefix, i, fetch)
      {
        var link := transcriptsLinks[idx];
        assert transcriptsLinks[..idx + 1][..idx] == transcriptsLinks[..idx];
        var outcome := DownloadFile(link, outputDir, TranscriptPrefix, idx, fetch);
        files := Save(files, outcome);
        outcomes := outcomes + [outcome];
      }
      assert transcriptsLinks[..|transcriptsLinks|] == transcriptsLinks;
    }
  }
}
