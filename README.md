# doc-to-md-cli, modelled in Dafny

`main.py` of doc-to-md-cli converts `.doc`/`.docx` files to Markdown by
driving Microsoft Word over COM. It does three things:

- For each paragraph it emits a heading or a plain text line, followed by
  the paragraph's inline images.
- It exports each image as PNG, or falls back to EMF when PNG export fails.
- After all paragraphs it emits every table as a pipe table.

The text can then be cleaned up (`simple_optimize_markdown`). In directory
mode the program converts every document it finds. Word is reused across
documents and restarted once after an RPC or pointer error.

This project models that behaviour and proves properties of the model.
Word, the file system and ImageMagick are not modelled. A document is
represented by what each call into them returned, or by the fact that the
call raised. The modules are:

- `Wrappers`: `Option`.
- `Text`: the Python string built-ins the code relies on, each with its
  exact Python meaning:
  - `str.isspace` (the exact set of characters) and `strip`;
  - `replace` (left to right, non-overlapping), with its one-character
    cases proved equal to a deletion and to a character map;
  - `join`;
  - `str(int)`;
  - `in` on strings;
  - ASCII `lower`.
- `Normalise`: `simple_optimize_markdown`:
  - removal of BEL;
  - `re.sub(r"\n{3,}", "\n\n")`;
  - the `MULTILINE` heading fix-up `^(#{1,6})([^#\s])`.
- `Paths`: Windows path handling (`ntpath` flavour):
  - `splitext`, `basename` and `join`;
  - the `.doc`/`.docx` filter of `_iter_doc_files` (top level and
    recursive);
  - `_default_output_path`;
  - the `<stem>_images` directory;
  - relative image links with `\` replaced by `/`.
- `Transcribe`: the transcription pass of `_convert_with_word_instance`:
  - The result is a list of structured entries (`Line`).
  - `Render` gives the exact f-string of each entry.
  - The output text is the join of the rendered entries, optionally
    optimised.
  - Each loop of the source is a method, proved equal to a specification
    function.
- `Batch`: the command-line driver:
  - the `--quiet`/`--verbose` mapping;
  - `_is_rpc_or_pointer_error`;
  - the per-document `for attempt in range(2)` loop with its restart of
    Word;
  - the batch loop and its counts and exit status;
  - single-file mode with its one unconditional retry.

Each document in a batch is a `Job`. A `Job` records the outcome of each
conversion attempt and whether relaunching Word succeeds. The model
records what happens to Word and to the files as a sequence of `Event`s.

## Model

| member | source | states |
|---|---|---|
| `Text.Strip` | main.py:75 | Both ends of the stripped text are non-whitespace, and it is empty exactly when the input is all whitespace. |
| `Text.StripIsMiddle` | main.py:75 | The stripped text is the part of the input between a whitespace prefix and a whitespace suffix. |
| `Text.StripKeeps` | main.py:185 | A character that is not whitespace is in the stripped text exactly when it is in the input. |
| `Text.StripUnspaced` | main.py:185 | Text with no whitespace at either end is its own `strip()`. |
| `Text.ReplaceCharRemoves` | main.py:184 | Replacing a one-character pattern by a string that does not contain it leaves no occurrence of that character. |
| `Text.ReplaceOneChar` | main.py:152 | Replacing a one-character pattern by one character changes exactly the positions that held the pattern, to the replacement. |
| `Text.ReplaceAllKeeps` | main.py:184 | A character that is in neither the pattern nor the replacement is in the result of `replace` exactly when it is in the input. |
| `Text.ReplaceAllAbsent` | main.py:184 | When the first character of the pattern does not occur, `replace` leaves the text unchanged. |
| `Text.ReplaceByNothing` | main.py:31 | Replacing a one-character pattern by the empty string deletes exactly the occurrences of that character. |
| `Text.WithoutRemoves` | main.py:31 | After the deletion no occurrence of the deleted character is left. |
| `Text.WithoutAbsent` | main.py:31 | Deleting a character that does not occur leaves the text unchanged. |
| `Text.WithoutKeeps` | main.py:31 | Any other character is present after the deletion exactly when it was present before. |
| `Text.NatToStringRoundTrip` | main.py:98 | `str(i)` is a non-empty string of decimal digits that reads back as `i`. |
| `Text.NatToStringInjective` | main.py:115 | Different numbers have different decimal forms, so `str(image_index)` tells the index back. |
| `Text.Lower` | main.py:258 | Lower-casing keeps the length, maps every ASCII capital to its small letter, and leaves every other character unchanged. |
| `Text.ContainsChar` | main.py:98 | For a one-character pattern, `sub in s` holds exactly when the character occurs in `s`. |
| `Normalise.CollapseLeavesNoTriple` | main.py:34 | After collapsing, the text contains no run of three or more newlines. |
| `Normalise.CollapseKeepsShortRuns` | main.py:34 | Text without a run of three newlines is left unchanged. |
| `Normalise.CollapseRemovesOnlyNewlines` | main.py:34 | Collapsing deletes newlines and nothing else: with all newlines removed, the text before and after is the same. |
| `Normalise.CollapseRun` | main.py:34 | A maximal run of three or more newlines becomes exactly two; a shorter run is kept. |
| `Normalise.CollapseFiveNewlinesExample` | main.py:34 | Five consecutive newlines between two letters collapse to exactly two. |
| `Normalise.FixLineInsertsSpace` | main.py:37 | A line that starts with 1 to 6 `#` followed by a character that is neither `#` nor whitespace gets a space inserted after the `#`s. |
| `Normalise.FixLineKeepsSpaced` | main.py:37 | A line whose `#` run is already followed by whitespace is unchanged. |
| `Normalise.FixLineKeepsUnmarked` | main.py:37 | A line that does not start with `#`, and a line made only of `#`, are unchanged. |
| `Normalise.FixLineKeepsLongRuns` | main.py:37 | Seven or more leading `#` are not a heading marker, and the line is unchanged. |
| `Normalise.FixLineIdempotent` | main.py:37 | Fixing a line twice gives the same line as fixing it once. |
| `Normalise.FixLineTitleExample` | main.py:37 | `##Title` becomes `## Title`, and `## Title` is left as it is. |
| `Normalise.FixHeadingsLine` | main.py:37 | With `re.MULTILINE` each line is rewritten on its own: a line, a newline and more text become the rewritten line, the newline and the rewritten rest. |
| `Normalise.FixHeadingsIdempotent` | main.py:37 | The line-by-line fix-up of the whole text is idempotent. |
| `Normalise.FixHeadingsInsertsOnlySpaces` | main.py:37 | The fix-up inserts only spaces: with the spaces removed, its output equals its input with the spaces removed. |
| `Normalise.FixHeadingsKeepsNoTriple` | main.py:37 | Inserting the spaces cannot create a triple newline. |
| `Normalise.Optimize` | main.py:28-39 | The optimised text contains no BEL character and no run of three newlines. |
| `Normalise.OptimizeIdempotent` | main.py:28-39 | Optimising already optimised text changes nothing. |
| `Normalise.OptimizeKeepsText` | main.py:28-39 | Every character other than BEL, newline and space is present after optimising exactly when it was present before. |
| `Paths.SplitExtShape` | main.py:245 | Root and extension concatenate back to the path. The extension is empty, or a single dot followed by anything but dots and separators. |
| `Paths.Basename` | main.py:66 | The result is the final component of the path: a suffix of the path that contains no separator and is either the whole path or preceded by a separator. |
| `Paths.IsDocNameExactly` | main.py:258 | `splitext(name)[1].lower()` is `.doc` or `.docx` exactly when the name ends, case-insensitively, in `.doc` or `.docx` with something other than dots before it. |
| `Paths.StemWithDocExtension` | main.py:258 | A name made of a separator-free stem that does not start with a dot, followed by an extension that lower-cases to `.doc` or `.docx`, is selected. |
| `Paths.LeadingDotNameNotSelected` | main.py:258 | A name whose only dot is its first character, such as `.docx`, has an empty extension under `splitext` and is not selected. |
| `Paths.TopLevelDocFilesMembers` | main.py:256-260 | A path is listed exactly when it is the root joined with the name of a directory entry that is a file with a `.doc`/`.docx` extension. |
| `Paths.TopLevelDocFilesCount` | main.py:256-260 | Exactly one path is listed per selected entry. |
| `Paths.ListDocFiles` | main.py:256-260 | The loop over `os.listdir` produces the top-level listing. |
| `Paths.DocFilesInMembers` | main.py:262-264 | Within one directory of the walk, a path is listed exactly when it is that directory joined with one of its file names that has a document extension. |
| `Paths.WalkDocFilesMembers` | main.py:261-264 | A path is in the recursive listing exactly when some directory of the walk yields it. |
| `Paths.WalkForDocFiles` | main.py:261-264 | The nested loop over `os.walk` produces the recursive listing. |
| `Paths.SubdirectoryOnly` | main.py:256-264 | A `.docx` file that sits only in a subdirectory is not listed at the top level, where the subdirectory is not a file, and is listed exactly once by the walk. |
| `Paths.DefaultOutputPath` | main.py:244-246 | The output path ends in `.md`. |
| `Paths.DefaultOutputPathSplits` | main.py:244-246 | When the input's final component is not all dots, the output path splits back into the input's root and `.md`. |
| `Paths.ImageDirName` | main.py:64-67 | The image directory's name has no separator and is `<stem>_images`, where the stem followed by the extension `splitext` splits off gives back the base name of the output path. |
| `Paths.ForwardSlashes` | main.py:152 | The length is kept, every backslash becomes `/` at the same position, and every other character stays where it was; so no backslash is left. |
| `Paths.ImageReferenceShape` | main.py:150-152 | For an image directory without backslashes, the link to an image file reads `<image directory>/<file>`. |
| `Transcribe.HeadingLevel` | main.py:94-100 | The level is between 1 and 6. Either its decimal form occurs in the style name and no smaller one of 1 to 6 does, or none of 1 to 6 occurs and the level is 1. |
| `Transcribe.MentionsDigit` | main.py:98 | For a level from 1 to 6, `str(i) in style_name` holds exactly when the digit occurs in the style name. |
| `Transcribe.HeadingLevelSmallestDigit` | main.py:97-100 | `Heading 32` is level 2: the smallest digit wins, not the leftmost one. |
| `Transcribe.HeadingLevelDefault` | main.py:94-100 | `Heading`, which holds no digit, is level 1. |
| `Transcribe.ClassifyHeading` | main.py:93-100 | The loop over `range(1, 7)` with its `break` sets `is_heading` exactly for styles containing `标题` or `Heading`, with the level above. |
| `Transcribe.TextLinesOf` | main.py:75-106 | A paragraph gives no text entry when its stripped text is empty. Otherwise it gives one entry holding the stripped text: a heading exactly when the style is a heading style, at `HeadingLevel` of the style. |
| `Transcribe.ImageExport` | main.py:111-149 | An image is produced exactly when the shape could be fetched and either `SaveAsPicture` or the EMF export succeeded. It is a PNG exactly when `SaveAsPicture` succeeded, or the EMF export succeeded, `magick` succeeded and the PNG file exists. |
| `Transcribe.ImageFileName` | main.py:115-123 | The file name of image `n` has no separator and is `img_`, then the decimal form of `n`, then the four-character extension of its format. |
| `Transcribe.ImageFileNameInjective` | main.py:115-123 | Two images get the same file name only when they have the same index and the same format, so the numbered images never overwrite one another. |
| `Transcribe.CellText` | main.py:181-187 | A cell's text has no carriage return and no newline, and both of its ends are non-space. An unreadable cell gives the empty string. |
| `Transcribe.CleanCellMapsBreaks` | main.py:181-187 | After the `\r\x07` marks are removed, each remaining carriage return and line feed becomes a space at the same position, and the written cell is that text stripped. |
| `Transcribe.CellKeepsText` | main.py:181-187 | Any character other than whitespace and the bell of the `\r\x07` end-of-cell mark is in the written cell text exactly when it is in the raw cell text. |
| `Transcribe.CellKeepsPlainText` | main.py:181-187 | A readable cell without carriage returns or line feeds and without whitespace at either end is written exactly as it is. |
| `Transcribe.RowCellsAt` | main.py:177-187 | Cell `c` of row `r` is the cleaned text of the cell at that position. |
| `Transcribe.TableLines` | main.py:168-199 | A table gives no entries exactly when it could not be measured or has no rows or no columns. |
| `Transcribe.TableShape` | main.py:175-195 | A table of `rows` rows gives `rows + 3` entries: a blank line, the first row, the `---` rule with one column each, the other rows in order, and a closing blank line. |
| `Transcribe.DocumentImagesNumbered` | main.py:69-156 | Across the document the image entries are numbered 1, 2, 3, … with no gap. There is one number per exported image, and the counter advances only on a successful export. |
| `Transcribe.TablesAfterParagraphs` | main.py:71-199 | Once a table entry appears, every later entry is a table entry: all tables come after all paragraph content. |
| `Transcribe.OneTextEntryPerParagraph` | main.py:72-106 | The number of text entries equals the number of readable paragraphs whose stripped text is non-empty. |
| `Transcribe.TablesHoldNoText` | main.py:167-199 | The table pass emits no heading or paragraph entries. |
| `Transcribe.RenderImage` | main.py:150-155 | Image `n` is rendered as `![image<n>](<image directory>/img_<n>.<ext>)` followed by a blank line. |
| `Transcribe.Markdown` | main.py:201-203 | Without optimisation the output is the concatenation of the rendered entries, with images referred to inside `<stem>_images`. With optimisation (the default) it is `simple_optimize_markdown` of that concatenation, so it has no BEL and no triple newline. |
| `Transcribe.MarkdownStable` | main.py:201-203 | The optimised output is a fixed point of `simple_optimize_markdown`: cleaning it again changes nothing. |
| `Transcribe.TranscribeText` | main.py:75-106 | The text step of the paragraph loop produces `TextLines`. |
| `Transcribe.TranscribeImages` | main.py:109-161 | The shape loop produces the image entries, and it advances the counter by the number of images exported. |
| `Transcribe.TranscribeParagraph` | main.py:73-165 | One iteration of the paragraph loop: nothing when the text cannot be read, else the text entry followed by the images. |
| `Transcribe.TranscribeParagraphs` | main.py:69-165 | The paragraph loop, with the image counter starting at 1, produces `ParagraphsLines`. |
| `Transcribe.TranscribeRow` | main.py:178-187 | The cell loop produces the cleaned cells of the row. |
| `Transcribe.TranscribeTable` | main.py:169-199 | One iteration of the table loop produces `TableLines`. |
| `Transcribe.TranscribeTables` | main.py:168-199 | The table loop produces `TablesLines`. |
| `Transcribe.Transcribe` | main.py:61-199 | `markdown_lines` is the paragraph entries followed by the table entries. |
| `Batch.Verbosity` | main.py:328-337 | Both flags together are an error. Otherwise the verbosity is 0 exactly for `--quiet`, 2 exactly for `--verbose`, and 1 otherwise. |
| `Batch.AtMostTwoAttempts` | main.py:374-405 | A document is attempted once or twice. It is attempted twice exactly when Word was relaunched and the first attempt failed with a COM error of code -2147023174, -2147023170 or -2147467261 while `pywintypes` is available, or with a `TypeError` whose text contains `does not support enumeration`. |
| `Batch.RestartOnlyOnTransientFailure` | main.py:268-289 | Word is restarted at most once per document. It is restarted exactly when the first attempt failed with a COM error of code -2147023174, -2147023170 or -2147467261 while `pywintypes` is available, or with a `TypeError` whose text contains `does not support enumeration`; any other failure is not retried. |
| `Batch.NoRetryUnlessTransient` | main.py:383-405 | A first attempt that succeeds, or fails non-transiently, is the only attempt. The document then counts as converted or failed with that exception. |
| `Batch.ConvertWithRetry` | main.py:371-405 | The retry loop with its `break`s produces the outcome and the events of the retry policy. |
| `Batch.ConvertOne` | main.py:371-410 | One document adds its outcome under the retry policy to the counts: a conversion to `ok`, a failure to `fail`, and a relaunch that raised stops the run. |
| `Batch.ConvertAll` | main.py:365-412 | The loop over the documents produces the counts and the events of `Run`. |
| `Batch.Run` | main.py:365-412 | The counts cover at most the documents given. Without an abort they cover every one of them. |
| `Batch.AbortedRunStops` | main.py:400-412 | Once relaunching Word has raised, no later document is attempted or counted. |
| `Batch.RunCountsEveryDocument` | main.py:407-410 | Without an abort, `ok` is the number of documents the policy converts and `fail` is the rest. |
| `Batch.SummaryAccounts` | main.py:423-424 | When the summary is reached, `ok + fail == total`, and the exit status is 0 exactly when `fail == 0`. |
| `Batch.BatchExitsZero` | main.py:342-424 | A directory run exits with 0 exactly when no document was found, or when pywin32 is present, Word starts, nothing aborts and every document is converted. |
| `Batch.RunAttempts` | main.py:374 | The whole run makes at most two conversion attempts per document. |
| `Batch.ExitStatus` | main.py:344-424 | The exit status is 0 or 1. |
| `Batch.RunBatch` | main.py:342-424 | The directory branch produces its outcome and its events. Word is launched after the two early returns, and it is quit in `finally` only when it was started. |
| `Batch.SingleOutputPath` | main.py:427 | `-o` is used when it is given and non-empty. Otherwise the output path is the default `.md` path. |
| `Batch.SingleFile` | main.py:427-443 | The conversion is called a second time exactly when the first call fails. The exit status is 0 exactly when one of the calls succeeds. |
| `Batch.MainExit` | main.py:328-443 | `main` returns 0 or 1: 1 for `--quiet` with `--verbose`; the batch status for a directory; 0 for a file exactly when one of the two conversions succeeds. |

## Left out

- Word and COM are not modelled: opening and closing documents, `Visible`/`DisplayAlerts`, and the properties read from Word. Their results are inputs of the model (`Paragraph`, `Shape`, `Table`, `Job`).
- File I/O is not modelled: `os.makedirs`, writing the `.emf` and `.md` files, and deleting the `.emf`. The model produces the text that is written.
- The `magick` subprocess and `os.path.exists` are not run. Their results are fields of `Shape`.
- `os.listdir`, `os.path.isfile` and `os.walk` are inputs of the model: the entries with their file flag, and the walk's directories and file names.
- `os.path.abspath` is not modelled. Paths are taken as already absolute.
- `os.path.relpath` is modelled by its result in this program: the image directory's name joined with the file name. Both paths share the directory of `md_path`.
- `Text.Lower` lowers ASCII letters only. Full Unicode case mapping is not modelled. No other character lower-cases to one of `.`, `d`, `o`, `c` or `x`, so the extension filter is still exact.
- Printing, `traceback.print_exc` and `argparse` are not modelled. The verbosity only decides what is printed, so it appears only in `Batch.Verbosity`.
- `str(para.Style.NameLocal)` of a value that is not a string is not modelled. The style is either the string or unreadable.
- The batch model does not model the conversion inside each attempt. A `Job` says whether each attempt succeeded and, if it failed, with which exception.
- An exception raised while iterating `doc.Paragraphs` or `doc.Tables` themselves is not modelled. Such an exception is not caught per paragraph or per table, so a `Job` records it as the attempt's failure.
- Single-file mode (`convert_doc_to_markdown`) is modelled by the success of each of its two calls. A missing `win32com`, a failed `Dispatch` and a failed conversion all make a call return False.
- Drive letters and UNC prefixes are not modelled. A path is a string over `\` and `/` separators.
