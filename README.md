# hktools core, modelled in Dafny

hktools is a small personal Python utility library. This project models the
parts of it that have logic of their own:

- **Suffix resolution of `file2df` and `df2file`** (module `TableFiles`):
  which pandas reader loads a file, and which writer saves a table, chosen
  from the text after the last `.` of the file name. A dot-less name is
  saved as `.xlsx`. An unknown suffix fails the assertion. An `xls` name
  passes the check, writes nothing and returns `False`. An `xlsx` file
  takes its own name as worksheet name, which `xlsxwriter` refuses when it
  is longer than 31 characters or holds one of `[ ] : * ? / \`.
- **`find`** (module `FileSearch`): the regular files of a directory
  listing whose names match `^start.*?end$`, as joined paths, in listing
  order. The method walks the listing with a loop, as the source does.
- **`dict2df`** (module `NestedDict`): flattening a nested mapping into
  rows, one row per plain value, depth first in key order. The method
  recurses and loops over the keys as the source does. It is proved equal
  to a recursive definition. That definition is in turn proved to
  agree with an independent description: the list of plain values with
  their key paths, each turned into a row.
- **`hobject`** (module `BaseObj`): each construction sets the
  process-wide logger `mylogger` to DEBUG and attaches one more
  append-mode file handler to it. `log` accepts a level name in any case
  if it is one of five names, and writes one line through every attached
  handler.

Module `PyText` defines the Python string operations these rely on:
`str.split('.')` with its round trip, `str.upper`, prefix and suffix tests,
and POSIX `os.path.join`. Module `Wrappers` (wrappers.dfy) holds `Option` and `Result`.

Directory listings, `os.path.isfile` results and the working directory are
inputs. Log files are part of the logger's state: each file is a sequence
of (level, message) lines.

Three behaviours of the code that are easy to misread, all modelled as the
code has them:

- `df2file` reaches `return False` for an `xls` suffix: the suffix passes
  the check at utils.py:39 but has no writer in utils.py:41-46.
- `find` returns `os.path.join(path, name)`, which is absolute only when
  `path` is.
- In `dict2df`, a plain value at a shallow level fills only two columns;
  the others are NaN (a missing key in the model's row map).

## Model

| member | source | states |
|---|---|---|
| PyText.Split | utils.py:16 | `str.split('.')` gives at least one piece and no piece holds a dot |
| PyText.JoinSplit | utils.py:16 | joining the pieces with dots gives back the name |
| PyText.SplitJoin | utils.py:38 | splitting dot-joined dot-free pieces gives back the pieces |
| PyText.SplitSingle | utils.py:38 | the split has a single piece exactly when the name has no dot |
| PyText.LastPieceAfterDot | utils.py:16 | for a name with a dot, the last piece of the split is the text after the last dot |
| PyText.LastSegment | utils.py:16 | `split('.')[-1]` is dot-free and ends the name; it is the whole name without a dot, otherwise it follows the last dot |
| PyText.Upper | baseobj.py:36 | `str.upper` keeps the length and maps each character to its upper case |
| PyText.UpperChar | baseobj.py:36 | a character maps to an ASCII capital only if it is an ASCII letter, dotless i or long s; lower-case ASCII letters map to their capitals |
| PyText.PathJoin | utils.py:63-64 | `os.path.join` ends with the name; an absolute name replaces the directory; otherwise the result starts with the directory |
| TableFiles.ParseFormat | utils.py:39 | a suffix is one of the four formats exactly when it spells that format's name, case-sensitively |
| TableFiles.File2Df | utils.py:16-23 | `file2df` fails with the suffix assertion exactly when the last segment is not a format; txt reads with `read_table`, csv with `read_csv`, xls and xlsx with `read_excel`, each in both directions |
| TableFiles.File2DfDotless | utils.py:16 | a dot-less name is accepted only if it is one of the four format words |
| TableFiles.File2DfCaseSensitive | utils.py:16 | `data.CSV` is refused, `data.csv` is read as csv |
| TableFiles.SegmentAfterDot | utils.py:16 | the last segment of `stem.suffix` is `suffix` |
| TableFiles.OutDir | utils.py:36 | a missing or empty output path means the working directory |
| TableFiles.SaveSuffix | utils.py:38 | the resolved suffix is dot-free: `xlsx` for a dot-less name, otherwise the last segment |
| TableFiles.OutName | utils.py:40 | the output name contains a dot and its last segment is the resolved suffix, so `file2df` reads it back in the format it was written in; a dotted name is kept, a dot-less one gains `.xlsx` |
| TableFiles.Df2File | utils.py:36-49 | a non-table fails before the name is examined; a name fails exactly when its resolved suffix is not a format, or it is xlsx and the output name (the sheet name) has over 31 characters or one of `[ ] : * ? / \`; otherwise a file is written (True) exactly when the suffix is not xls, at the output directory joined with the output name; `to_excel` with the output name as sheet exactly for xlsx, `to_csv` with `,` for csv and a tab for txt |
| TableFiles.Df2FileDotless | utils.py:38-42 | a dot-less name is written to `name.xlsx` in the output directory, in a sheet named `name.xlsx`, when that is a valid sheet name; otherwise the writer refuses it |
| TableFiles.SheetNameWithSuffix | utils.py:40-42 | `name.xlsx` is a valid sheet name exactly when the name has at most 26 characters, none of them refused |
| TableFiles.Df2FileDotlessSaved | utils.py:38-42 | a dot-less name is saved exactly when it has at most 26 characters and none the writer refuses |
| TableFiles.Df2FileLongName | utils.py:38-42 | a dot-less name of more than 26 characters fails with the sheet-name error |
| TableFiles.Df2FileDotted | utils.py:38-48 | a dotted name keeps its name; an unknown suffix fails; xlsx writes when the name is a valid sheet name and fails otherwise; txt and csv write with their writers; xls writes nothing and returns False |
| FileSearch.PatternMatches | utils.py:61-63 | a match always starts with the prefix; for a name without a line break, the pattern matches exactly when the name starts with the prefix, ends with the suffix and is at least as long as both |
| FileSearch.Accepts | utils.py:63 | an entry is kept only if it is a regular file whose name starts with the prefix; no other entry is kept |
| FileSearch.Found | utils.py:60-65 | the result has no more entries than the listing |
| FileSearch.SelectedSpec | utils.py:62-63 | kept positions rise strictly, and a position is kept exactly when its entry is a regular file with a matching name |
| FileSearch.FoundIsSelection | utils.py:60-65 | the result is, in listing order, the joined path of each kept entry |
| FileSearch.FoundMembership | utils.py:62-64 | a path is returned exactly when some matching regular file joins to it |
| FileSearch.Find | utils.py:52-65 | the loop returns exactly the filtered, joined listing |
| FileSearch.FindsTestLog | tests/test_baseobj.py:27 | searching `test`…`log` among `test_hobject.log` and `other.txt` yields the log file's path alone |
| NestedDict.Tail | utils.py:115 | `header[1:]` drops the first column, and is empty for an empty header |
| NestedDict.WithColumn | utils.py:116-117 | inserting the key column keeps the row count and sets that column in every row |
| NestedDict.FlattenFirst | utils.py:113-122 | the rows built for the first n entries, or the first error; every row holds the key column `header[0]` and no column outside the header |
| NestedDict.Flatten | utils.py:111-123 | the same for the whole mapping |
| NestedDict.Dict2Df | utils.py:68-123 | the frame has columns `header` and the rows of the flattening, or the error it raises first |
| NestedDict.FlattenPrefixErr | utils.py:113-122 | an error raised by an entry ends the flattening: later entries are not looked at |
| NestedDict.RowOf | utils.py:117-121 | a plain value's row holds exactly the first depth+1 header columns; with distinct names, its keys and value sit in their columns |
| NestedDict.NestedRowsAreRowsOf | utils.py:115-118 | the sub-table's rows, with the key inserted in `header[0]`, are the rows of the key paths extended by that key |
| NestedDict.FlattenFirstRows | utils.py:113-122 | one row per plain value of the first n entries, depth first, each the row of its key path and value |
| NestedDict.FlattenRows | utils.py:113-122 | the row count equals the number of plain values, and row j is built from the j-th plain value's key path |
| NestedDict.FlattenFirstSucceeds | utils.py:114-122 | success needs as many header columns as the mapping has levels; with distinct names that is also enough |
| NestedDict.FlattenSucceeds | utils.py:114-122 | the same for the whole mapping |
| NestedDict.FlattenFirstPrefix | utils.py:113-122 | the rows of earlier entries are a prefix of the rows of later ones |
| NestedDict.FlattenBlock | utils.py:113-122 | each entry's rows form one block after those of earlier keys; a plain value gives `{header[0]: key, header[1]: value}`; every row under a nested key holds that key in `header[0]` |
| NestedDict.ThreeLeaves | utils.py:119-122 | three plain values give their three rows, in order |
| NestedDict.DocExample | utils.py:77-108 | the documented 3 × 3 mapping gives the nine rows shown |
| BaseObj.ParseLevel | baseobj.py:29-36 | a level is found exactly when the upper-cased name spells one of the five level names |
| BaseObj.ParseLevelIgnoresCase | baseobj.py:36-37 | a name that spells a level with each letter in either case selects that level |
| BaseObj.ParseLevelExamples | tests/test_baseobj.py:11-15 | `critical`, `debug`, `error`, `Warning` reach their levels; `FATAL` is refused |
| BaseObj.LogFileName | baseobj.py:20 | a missing or empty log name means `./hobject.log`; any other name is used as given |
| BaseObj.Opened | baseobj.py:21 | opening in append mode keeps an existing file's lines and creates a missing file empty |
| BaseObj.Deliver | baseobj.py:37 | a record written through the handlers creates no new file |
| BaseObj.DeliverAppends | baseobj.py:25 | each file gets the line once per handler on it, after its earlier lines |
| BaseObj.DuplicatedLines | baseobj.py:12-25 | after n constructions on one file, one message appears n times in it |
| BaseObj.Logger.constructor | baseobj.py:12 | the first `getLogger` has no handlers and an unset level |
| BaseObj.Logger.SetLevel | baseobj.py:13 | the level changes, handlers and files do not |
| BaseObj.Logger.AddFileHandler | baseobj.py:21-25 | the handler is added after the existing ones and its file is opened for appending |
| BaseObj.Logger.Emit | baseobj.py:37 | a record at or above the effective level goes through every handler in order; a lower one is dropped |
| BaseObj.HObject.constructor | baseobj.py:9-25 | the shared logger is set to DEBUG and gains exactly one handler, on the resolved log file |
| BaseObj.HObject.Log | baseobj.py:28-37 | an unknown level name fails and writes nothing; a known one at or above the logger's effective level goes through every handler, one below it is dropped; with the logger at DEBUG, as every construction leaves it, every known level is written |
| BaseObj.LogAfterConstructions | baseobj.py:9-37 | after n constructions with one log name and one `log` call, the file holds its earlier lines followed by the line n times; an unknown level writes nothing |
| BaseObj.ConstructAndLog | tests/test_baseobj.py:21-23 | constructing once on a fresh file and logging each message leaves line i of the file holding message i at its level |
| BaseObj.ObjInit | tests/test_baseobj.py:19-23 | the removal raises exactly when the file does not exist; otherwise the file holds one line per message, in order |

## Left out

- Reading and writing by pandas (`read_table`, `read_csv`, `read_excel`, `to_excel`, `to_csv`): foreign library calls. The model names the reader or writer and its arguments, not what it does to the data.
- TableFiles.File2Df: `Ok(ReadExcel)` names the `read_excel` call that utils.py:23 makes for an `xls` or `xlsx` name, not its outcome. That call passes the `xlsxwriter` module as `engine`, which pandas refuses with `ValueError` (unknown engine), so `file2df` then fails on every Excel file; what pandas does with its arguments is outside the model.
- `str(fname)` and `str(level)` on values that are not strings: names and levels are modelled as text.
- File system calls (`os.listdir`, `os.path.isfile`, `os.getcwd`): I/O. The listing, the file flags and the working directory are inputs.
- TableFiles.Df2File: of the worksheet-name rules of `xlsxwriter`, only the 31-character limit and the refused characters are modelled; an apostrophe at either end of the name and the reserved name `History`, refused by newer versions, are not. Whether a partial file stays on disk after the refusal, and the I/O errors of the writers, are not modelled: `Wrote` and True assume the writer returns.
- FileSearch.Find: requires a prefix and suffix without regular-expression metacharacters. The source builds the pattern without escaping; general regular expressions (and the `re.error` a malformed one raises) are not modelled.
- BaseObj.ObjInit: requires every message's level name to be one `log` knows, as the test's four pairs are; an unknown one would stop `obj_init` at the assertion in `log`, which `HObject.Log` models but this method does not carry on to.
- PyText.Upper: maps only ASCII letters, the dotless i and the long s. Other characters are kept as they are. No other character's upper case can spell a level name, so level lookup is exact; `str.upper` is not modelled in general.
- NestedDict: only the `insert` collision of `header[0]` with a later column is modelled. Repeated column names further down the header make pandas align columns by label; there the model's rows are maps, and the outcome is not modelled.
- NestedDict: pandas column types, the NaN values, and the removal of `DataFrame.append` in pandas 2 are not modelled.
- Log line formatting (timestamp, source file, line number) and the handlers' file I/O: a line is reduced to its level and message.
- Propagation of records to handlers of the root logger: none are attached by this code.
- Path normalisation by `FileHandler` (`os.path.abspath`): file names are compared as given.
- Unsynchronised construction from several threads: concurrency is not modelled.
- `search`, imported by the logger test: it is not defined in the utils.py shown, so it is not part of this model.
- tests/test_temp.py and the `__main__` demonstration in baseobj.py: scripts of I/O calls with no logic of their own.
