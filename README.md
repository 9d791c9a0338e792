# NPTEL speech-corpus pipeline, modelled in Dafny

The pipeline builds a speech-recognition corpus from NPTEL lectures. It
downloads lecture transcripts (PDF) from Google Drive share links. It cleans
the transcript text: lower-case, no punctuation, numbers spelled out. It crops
the last ten seconds off every WAV recording. It pairs each `audio_<index>`
recording with `document_<index>.txt` into a JSON-lines training manifest.
Finally it computes dataset statistics from that manifest: per-utterance ids
and counts, the vocabulary and alphabet, ten duration bins, and summary totals.

This project models those five steps and proves what each one promises:

| module | script | what is modelled |
|---|---|---|
| `Download` | download_transcript.py | file-id extraction, export URL, `transcript_<i>.pdf` naming, skip rules, the download loop, the downloader object |
| `Transcript` | preprocess_transcript.py | `clean_text`, and the `.pdf` → `.txt` renaming loop of `process_pdfs` |
| `Crop` | crop_audio.py | the crop count, the header-preserving prefix copy, the loop over the input folder |
| `Manifest` | create_manifest.py | the file filter, the index and transcript name, the pairing loop with its skip rules |
| `Dashboard` | dashboard_preprocess.py | the reading loop, `audio_id`, counts, vocabulary and alphabet, bin edges and bin assignment, summary |

`Text` and `Paths` model the Python string and `os.path` operations the
scripts rely on: `str.split()` on any whitespace, `split(c)`, `strip()`,
`" ".join`, `lower()`, `isdigit()`, `int()` and `str()` on naturals, `\w` runs,
`string.punctuation`, `os.path.join`, and the root of `os.path.splitext`.
`Wrappers` holds `Option` and `Result`.

The outside world is passed in as parameters:

- The directory listing is a `seq<string>` in listing order.
- Folders are maps from path to contents.
- The HTTP request is `fetch`.
- The WAV reader is `readWav`.
- The PDF text extractor is `extract`.
- The duration probe is `probe`.
- `num2words` is `spell`.

Each of these returns `None` where the Python call raises.

Loops are methods. Each one is proved equal to a specification function, and
lemmas state what that function guarantees.

Three behaviours of the code are worth stating plainly, and the model keeps them:

- When every duration is equal, the eleven bin edges coincide and `pd.cut`
  raises, because bin edges must be unique. `Dashboard.ProcessJsonl` returns
  `Failure(DuplicateBinEdges)` in exactly that case; an empty manifest fails
  earlier, at `min`, with `Failure(EmptyManifest)`.
- The vocabulary is the set of maximal `\w` runs (`\b\w+\b`) of the
  lower-cased corpus, not its whitespace-separated tokens.
- Transcript indices are not checked for uniqueness or for being numeric:
  `Manifest.SharedTranscript` shows two recordings sharing one transcript, and
  `Manifest.NonNumericIndex` a non-numeric index being paired.

## Model

| member | source | states |
|---|---|---|
| Dashboard.AudioIdOfName | dashboard_preprocess.py:36-37 | any path ending in `audio_<digits>.wav`, with any prefix and an optional final newline (`$`), gets the integer value of the digits as its `audio_id` |
| Dashboard.AudioIdSound | dashboard_preprocess.py:36-37 | conversely, a path gets an id only if it is some prefix + `audio_` + digits + `.wav` (optionally + newline), and the id is the value of those digits |
| Dashboard.Mp3HasNoId | dashboard_preprocess.py:36-37 | every `.mp3` path gets `None` |
| Dashboard.ReadManifest | dashboard_preprocess.py:29-37 | the four columns have one entry per manifest line, in line order: path, regex id, duration, text |
| Dashboard.WordsCountIsRunStarts | dashboard_preprocess.py:40 | the number of maximal non-whitespace runs equals the number of places where such a run begins, scanning left to right |
| Dashboard.WordsCounts | dashboard_preprocess.py:40 | one word count per utterance, equal to the number of places where a whitespace-free run begins in it |
| Dashboard.VocabularyPerUtterance | dashboard_preprocess.py:44-45 | a token is in the vocabulary iff it is a maximal `\w` run of some single lower-cased utterance: the joining space never glues two utterances' tokens together |
| Dashboard.VocabularyTokens | dashboard_preprocess.py:44-45 | every vocabulary token is non-empty, made of word characters, and has no upper-case ASCII letter |
| Dashboard.AlphabetPerUtterance | dashboard_preprocess.py:44-46 | a character is in the alphabet iff it is not `' '` and occurs in some lower-cased utterance; other whitespace is kept |
| Dashboard.MinOf | dashboard_preprocess.py:49 | `min(durations)` is one of the durations and at most each of them |
| Dashboard.MaxOf | dashboard_preprocess.py:50 | `max(durations)` is one of the durations and at least each of them |
| Dashboard.BinEdgesShape | dashboard_preprocess.py:51-54 | there are 11 edges; the first is the minimum and the last the maximum, exactly; consecutive edges differ by a tenth of the range; they strictly increase when max > min |
| Dashboard.BinEdgesIncreasing | dashboard_preprocess.py:54 | with max > min every later edge is strictly above every earlier one |
| Dashboard.BinLabels | dashboard_preprocess.py:55 | ten labels, one per bin, each the bin's lower edge in minutes; increasing edges give increasing, hence distinct, labels |
| Dashboard.SearchSortedLeft | dashboard_preprocess.py:58 | the insertion point pandas computes: every edge before it is below `x`, the edge at it is at least `x` |
| Dashboard.CutIsInBin | dashboard_preprocess.py:58 | over increasing edges, pandas puts `x` in bin `j` iff `x` is in `[e0, e1]` (j = 0) or `(ej, ej+1]` (j > 0) |
| Dashboard.CutCovers | dashboard_preprocess.py:58 | every value between the first and last edge gets a bin, and no other bin contains it |
| Dashboard.MinimumInFirstBin | dashboard_preprocess.py:58 | the shortest duration lands in bin 0 |
| Dashboard.AssignBins | dashboard_preprocess.py:58 | one bin per duration, each a bin containing it and the one pandas picks |
| Dashboard.MinIsMaxIffConstant | dashboard_preprocess.py:49-58 | minimum equals maximum exactly when all durations are equal |
| Dashboard.DetailedRows | dashboard_preprocess.py:40-71 | one row per line, in order, holding the line's path, id, duration, text, word count, character count and the bin containing its duration |
| Dashboard.Tabulate | dashboard_preprocess.py:40-77 | with distinct min and max, the report has the ten labels, one correct row per line, and the summary: total hours = sum / 3600, utterance count = lines, vocabulary and alphabet sizes |
| Dashboard.ProcessJsonl | dashboard_preprocess.py:23-77 | an empty manifest fails at `min`; a manifest of equal durations fails at `pd.cut`; otherwise the report described under `Tabulate` |
| Manifest.AudioFilesSpec | create_manifest.py:32 | the considered files are exactly the listed names starting with `audio_` and ending with `.wav` or `.mp3`; none is added, and a listing without repeats gives files without repeats |
| Manifest.AudioFilesAppend | create_manifest.py:32 | the filter keeps listing order: the files of a concatenated listing are the first part's files followed by the second's |
| Manifest.TranscriptIndexSpec | create_manifest.py:36 | the index is the text after `audio_` up to the first `_` or `.`, or to the end; it contains neither character |
| Manifest.TranscriptIndexOf | create_manifest.py:36 | for `audio_<index><ext>` with no `_`/`.` in the index and an extension starting with `.`, the index is recovered |
| Manifest.NonNumericIndex | create_manifest.py:36-37 | `audio_x.mp3` pairs with `document_x.txt`: a non-numeric index is not rejected |
| Manifest.SharedTranscript | create_manifest.py:32-37 | `audio_<i>.wav` and `audio_<i>.mp3` both pair with `document_<i>.txt` |
| Manifest.PairAudioFileSpec | create_manifest.py:36-64 | a file gets a record iff its transcript exists and both the probe and the read succeed; a missing transcript gives the warning; the record is (audio folder joined with the name, probed duration, stripped transcript) |
| Manifest.ProcessAudioFile | create_manifest.py:36-64 | the loop body for one file returns exactly the pairing outcome described under `PairAudioFileSpec`: the record to write, or the warning or error to print |
| Manifest.GenerateManifest | create_manifest.py:30-64 | the loop writes exactly the records, and prints exactly the notices, of the filtered files in listing order |
| Manifest.OneOutcomePerFile | create_manifest.py:34-64 | every considered file yields exactly one record or one notice |
| Manifest.WrittenAppend | create_manifest.py:34-59 | the records for a concatenation of files are the first part's records followed by the second's, so the manifest follows listing order |
| Manifest.PairingCorrect | create_manifest.py:32-59 | over distinct names, the manifest holds exactly one record with a file's audio path if that file pairs successfully, and none otherwise |
| Transcript.StripPunctuation | preprocess_transcript.py:47 | no character of `string.punctuation` remains |
| Transcript.StripPunctuationFrom | preprocess_transcript.py:47 | no character is introduced |
| Transcript.StripPunctuationKeeps | preprocess_transcript.py:47 | text without punctuation is unchanged |
| Transcript.StripPunctuationAppend | preprocess_transcript.py:47 | deletion works character by character: stripping a concatenation concatenates the stripped parts |
| Transcript.NormalizeChars | preprocess_transcript.py:44-47 | after lowering and stripping, no character is punctuation or upper-case ASCII |
| Transcript.CleanText | preprocess_transcript.py:32-60 | the token loop returns the space-joined words, one per whitespace-separated token |
| Transcript.CleanedWordsSpec | preprocess_transcript.py:50-57 | one word per token, in order; a non-digit token passes unchanged and is non-empty, whitespace-free, lower-case and punctuation-free; a digit token becomes `num2words(int(token))`, or stays when that raises |
| Transcript.CleanIdempotentWithoutNumbers | preprocess_transcript.py:44-60 | on text without all-digit tokens, cleaning the cleaned text changes nothing |
| Transcript.CleanedIsTrimmed | preprocess_transcript.py:50-60 | the result is empty iff there are no tokens; otherwise it neither starts nor ends with whitespace (given spellings that are non-empty and have no surrounding whitespace) |
| Transcript.CleanBlank | preprocess_transcript.py:44-60 | text of only whitespace and punctuation cleans to `""` |
| Transcript.NormalizeJoined | preprocess_transcript.py:44-47 | lower-case, punctuation-free tokens joined by spaces survive normalisation unchanged |
| Transcript.NormalizeDigitsAroundPunct | preprocess_transcript.py:44-47 | digits, one punctuation character, digits normalise to the two digit runs glued together |
| Transcript.PunctuationJoinsDigits | preprocess_transcript.py:47-54 | such a text cleans to the conversion of the single merged number |
| Transcript.CleanThousands | preprocess_transcript.py:47-54 | `"1,000"` cleans to the conversion of `"1000"` |
| Transcript.TxtNameOfPdf | preprocess_transcript.py:96 | a `.pdf` name whose stem has no slash and is not all dots is saved as that stem + `.txt` |
| Transcript.ProcessPdfs | preprocess_transcript.py:93-104 | the loop leaves the output folder exactly as the listing-order fold of extract, clean and save over the `.pdf` names |
| Transcript.SavePdfsSpec | preprocess_transcript.py:93-104 | every added or changed file is the `.txt` of a listed `.pdf`, holding that PDF's cleaned text; every listed `.pdf` has its `.txt` |
| Transcript.SavePdfsKeeps | preprocess_transcript.py:93-104 | no file is removed from the output folder |
| Crop.CropFramesExact | crop_audio.py:37-40 | over exact reals, `max(0, int((nframes / framerate - 10) * framerate))` equals `max(0, nframes - 10 * framerate)` |
| Crop.CropFramesBounds | crop_audio.py:40 | the kept count is at most `nframes`; it is 0 iff the file lasts at most 10 s; otherwise the kept part lasts exactly 10 s less |
| Crop.CroppedSpec | crop_audio.py:30-51 | the output keeps channel count, sample width and frame rate, holds a prefix of the input frames, is empty for files of at most 10 s, and is otherwise exactly `10 * framerate` frames shorter |
| Crop.CropLast10Seconds | crop_audio.py:23-53 | the loop leaves the output folder, and stops, exactly as the listing-order fold over `.wav` names does |
| Crop.CropAllStops | crop_audio.py:23-37 | the run stops early iff some `.wav` entry cannot be opened or has frame rate 0; the error names the first such entry, says which failure it was, and every `.wav` before it was processed |
| Crop.CropAllWrites | crop_audio.py:23-51 | no file is removed; every new or changed file is the output folder joined with a processed `.wav` name and holds that file's cropped audio |
| Crop.CropAllComplete | crop_audio.py:23-51 | a run that does not stop writes every listed `.wav` under the same name in the output folder, holding its cropped audio |
| Download.FileIdOf | download_transcript.py:112 | the file id is the segment between the last two slashes |
| Download.FileIdNone | download_transcript.py:112 | the split has a second-to-last segment iff the link contains a slash |
| Download.ShareLinkFileId | download_transcript.py:111-112 | `https://drive.google.com/file/d/<id>/view` yields `<id>` |
| Download.DownloadUrlInjective | download_transcript.py:113 | the export URL determines the file id |
| Download.TranscriptNames | download_transcript.py:114 | link `i` is saved as `transcript_` + decimal digits that read back as `i` + `.pdf`, for every `i`; e.g. `transcript_0.pdf`, `transcript_1.pdf`, `transcript_10.pdf` |
| Download.OutputPathInjective | download_transcript.py:114 | distinct indices give distinct output paths |
| Download.DownloadFileSpec | download_transcript.py:110-127 | a link is saved iff it contains `drive.google.com`, has a file id and the export-URL request answers 200; the file is `<folder>/<prefix>_<idx>.pdf` holding the body; non-Drive links are reported invalid; other statuses are reported as failures |
| Download.InvalidLinkNoRequest | download_transcript.py:111-125 | for a non-Drive link the outcome does not depend on the network, and nothing is written |
| Download.SlashlessLinkRaises | download_transcript.py:111-127 | a Drive link without a slash raises at the split, is caught, and writes nothing |
| Download.OnlyExportUrlRequested | download_transcript.py:112-116 | the outcome depends on the network only through the answer for the export URL of the link's file id |
| Download.DownloadAllSaved | download_transcript.py:143-144 | after the loop, `transcript_<i>.pdf` holds the body of link `i` whenever link `i` downloaded |
| Download.DownloadAllUntouched | download_transcript.py:143-144 | every path no link downloaded to keeps its previous contents |
| Download.NptelTranscriptsDownloader.constructor | download_transcript.py:16-27 | the downloader starts with the given output directory and course URL and no links |
| Download.NptelTranscriptsDownloader.AddTranscriptLink | download_transcript.py:87 | a collected link is appended after the earlier ones; nothing else changes |
| Download.NptelTranscriptsDownloader.DownloadTranscripts | download_transcript.py:129-144 | every link is attempted with prefix `transcript` and its position, in order; the output directory is the fold of those outcomes |

## Left out

- Unicode: `lower()`, `\w`, `isdigit()` and `int()` are modelled on ASCII only. Python applies them to all of Unicode.
- Floating point: durations and WAV arithmetic are exact reals. In floats, `int()` in crop_audio.py:40 may keep one frame fewer, and the last bin edge may differ from the maximum by rounding.
- Bin label text: `round(edge / 60, 1)` and the `" min"` suffix are left out; labels are exact minutes. When rounding makes two labels equal, pandas raises; that failure is not modelled.
- Dashboard.ProcessJsonl: a malformed JSON line, or one missing a key, raises in the source; the model takes already-parsed records.
- JSON encoding of manifest lines, CSV writing of the report and summary, and all printing are left out. Printed messages that mark a branch are outcome values (`Notice`, `DownloadOutcome`, `CropError`).
- Creating output folders (`os.makedirs`) is left out.
- Write failures are left out for the manifest file, the cropped WAV, the downloaded PDF, and the `.txt` files (whose errors `save_text_to_file` catches). The model assumes every write succeeds.
- Transcript.ProcessPdfs: `extract_text_from_pdf` (PyPDF2) is the parameter `extract`; its own fallback to `""` on errors is part of that parameter.
- `get_audio_duration` (mutagen), `num2words`, `requests.get` and `wave.open` are parameters.
- Download.DownloadFileSpec: streaming with `iter_content` is one body. A failure in the middle of the stream, which would leave a partial file, is not modelled.
- Selenium is left out: `setup_driver`, `fetch_transcripts_links` apart from its append at line 87, the `driver` field, and the waits. download_audio.py is left out entirely, because it is browser automation and an `ffmpeg` subprocess.
- Crop.CropAllComplete: requires listing names without `/`, which `os.listdir` guarantees. With such a name, a later entry could overwrite an earlier entry's output.
- Manifest.PairingCorrect: requires a listing without repeated names, which `os.listdir` guarantees.
- Transcript.CleanIdempotentWithoutNumbers: stated only for text without all-digit tokens, because `num2words` output may contain hyphens or commas.
- Crop.Wav: only channel count, sample width, frame rate and frames are modelled. Compression type and the other header fields are not.
