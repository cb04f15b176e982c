# Variant-config loader (Pikafish `pfconfig`)

A Dafny model of the loader that reads the optional variant configuration of the
engine from plain-text files in a root directory. It produces a
`PFVariantConfig` with three fields:

- `kingTied`: the "tied king" flag. It comes from `tieJiang.pfConfig`, where the
  first `'0'` or `'1'` anywhere in the file decides it.
- `ironSquares`: the mask of iron squares. It comes from `tieZi.pfConfig`, a grid
  of up to 10 lines with up to 9 significant characters each. Line r is rank
  9 - r and column c is file A + c; a `'1'` marks the square.
- `sourceSummary`: the path of each file used. With both files it is the flag
  file's path, `" | "`, then the grid file's path.

The model has five modules:

- `Board` (board.dfy): squares as (file, rank) pairs and masks as sets of squares.
- `Locator` (locator.dfy): `config_roots` and `try_parse_config`. The filesystem
  is a map from path to file contents, and a path is a key exactly when a file
  there exists and opens. `Locate` is the first-root-wins specification, and
  `TryParseConfig` is the loop proved against it.
- `FlagScan` (flag_scan.dfy): the flag lambda. `ScanKingTied` is the reading loop
  with its early `break`. `FirstDecision` and `KingTiedAfter` specify it.
- `IronMask` (iron_mask.dfy): `parse_iron_mask`. `ParseIronMask` is the nested
  row/column loop. `GridMask` (a union of row masks) and `Marked` (a
  square-by-square reading) specify it, and lemmas connect the two.
- `Loader` (loader.dfy): `load_pf_config`. `LoadPfConfig` updates a local
  configuration step by step as the source does and is proved equal to the
  function `Load`. Lemmas about `Load` state the summary and default rules.

In the source, `try_parse_config` calls a handler on the opened stream. In the
model, `TryParseConfig` returns the opened contents, and the caller runs the
handler on them exactly when the lookup succeeded. That is once, on the first
root where the file opens.

## Model

| member | source | states |
|---|---|---|
| `Locator.ConfigRoots` | src/pfconfig.cpp:36-45 | always exactly one root: the root directory when it is non-empty, otherwise the current path |
| `Locator.JoinPath` | src/pfconfig.cpp:55 | the joined path ends with the file name, so it is never empty for a non-empty name |
| `Locator.TryParseConfig` | src/pfconfig.cpp:47-66 | succeeds iff the file opens at some root; on success it records the first such root's path and returns that file's contents for the handler; on failure the summary is unchanged and nothing is handled |
| `Locator.LocateFound` | src/pfconfig.cpp:53-62 | a successful lookup names a root index whose joined path opens, where no earlier root's does, and returns that path with its contents |
| `Locator.LocateFirstWins` | src/pfconfig.cpp:53-62 | when root i is the first at which the file opens, the lookup yields root i's path and contents, whatever later roots hold |
| `Locator.LocateNone` | src/pfconfig.cpp:53-65 | the lookup fails iff the file opens at none of the roots |
| `Locator.SecondRootUsed` | src/pfconfig.cpp:53-58 | a first root lacking the file does not stop the search: the second root's copy is used and its path recorded |
| `FlagScan.FirstDecision` | src/pfconfig.cpp:99-104 | the position found holds a `'0'` or `'1'` with no such digit before it; no position means the stream has neither digit |
| `FlagScan.FirstDecisionAt` | src/pfconfig.cpp:99-104 | the first digit's position is the unique one: a digit with no digit before it is the one found |
| `FlagScan.ScanKingTied` | src/pfconfig.cpp:97-107 | the loop leaves the flag as `KingTiedAfter` says; it reads up to and including the first digit and no further, or the whole stream when there is none |
| `FlagScan.KingTiedCharacterisation` | src/pfconfig.cpp:98-106 | the flag ends true iff some `'1'` has no `'0'`/`'1'` before it, or the stream has no digit and the flag was already true |
| `FlagScan.DecidedIgnoresRest` | src/pfconfig.cpp:101-104 | characters after the deciding digit are never consulted: replacing them changes neither the flag nor how much is read |
| `FlagScan.SingleCharacterStreams` | src/pfconfig.cpp:98-106 | `"1"` gives true, `"0"` gives false, and the empty stream keeps the prior value |
| `FlagScan.NoisyStream` | src/pfconfig.cpp:99-105 | leading non-digit characters are skipped: in `"# tied: 1 0"` the `'1'` decides |
| `IronMask.SplitLines` | src/pfconfig.cpp:72 | reading line by line yields lines with no `'\n'`, and an empty stream yields no line |
| `IronMask.SplitLinesRoundTrip` | src/pfconfig.cpp:72 | the lines read from a stream, joined with `'\n'`, give back the stream less one final `'\n'`: every character lands in some line and each `'\n'` ends exactly one line |
| `IronMask.ParseIronMask` | src/pfconfig.cpp:68-86 | the nested loop returns exactly the squares the grid marks: those of the union of row masks, and square by square those that `Marked` holds for |
| `IronMask.RowMaskUpToMembers` | src/pfconfig.cpp:74-81 | a square is set by the first n columns of row r iff its rank is 9 - r, its column is below n and holds `'1'` |
| `IronMask.GridMaskUpToMembers` | src/pfconfig.cpp:72-83 | a square is set by the first n rows iff its row 9 - rank is below n and that row sets it |
| `IronMask.GridMaskMembers` | src/pfconfig.cpp:72-81 | a square is in the mask iff its row is below min(10, #lines), its column is below min(9, length of that line), and the character there is `'1'` |
| `IronMask.GridMaskOnBoard` | src/pfconfig.cpp:80 | every set square has file in A..I and rank in 0..9 |
| `IronMask.GridMaskUpToGrows` | src/pfconfig.cpp:69-81 | the mask only grows as rows are added: the mask of fewer rows is a subset of the mask of more |
| `IronMask.GridMaskIsUnionOfRows` | src/pfconfig.cpp:72-83 | the mask is the union of the per-row masks of the rows read |
| `IronMask.GridMaskOnlySignificant` | src/pfconfig.cpp:72-74 | two grids that agree on their first 10 lines, each cut to 9 characters, give the same mask |
| `IronMask.GridMaskIgnoresLinesPastTen` | src/pfconfig.cpp:72 | appending lines to a grid of 10 or more lines leaves the mask unchanged |
| `IronMask.GridMaskIgnoresColumnsPastNine` | src/pfconfig.cpp:74 | extending a line of 9 or more characters leaves the mask unchanged |
| `IronMask.TopLeftCornerGrid` | src/pfconfig.cpp:79-80 | the grid `"100000000"` followed by nine empty lines marks exactly A9: the top line is rank 9 and the first column is file A |
| `IronMask.ShortLineGrid` | src/pfconfig.cpp:74-76 | the one-line grid `"1"` marks exactly A9; a short line is read only as far as it goes |
| `Loader.JoinSummaries` | src/pfconfig.cpp:116-119 | empty iff both parts are empty; one empty part gives the other; two non-empty parts are joined by the separator (space, bar, space), the flag file's first |
| `Loader.LoadPfConfig` | src/pfconfig.cpp:90-122 | the step-by-step assembly equals `Load`: flag from the first flag file found, mask from the first grid file found, defaults otherwise, and the joined summary |
| `Loader.PathOrEmptyIsEmpty` | src/pfconfig.cpp:55-61 | the path a lookup records is empty iff the lookup failed |
| `Loader.LoadNothingFound` | src/pfconfig.cpp:91 | with neither file in the root, the result is the default configuration: false, no squares, empty summary |
| `Loader.LoadSummary` | src/pfconfig.cpp:108-119 | the summary is empty iff neither file was found; both found gives flag path + the separator (space, bar, space) + grid path; one found gives that path |
| `Loader.LoadFlagFileMissing` | src/pfconfig.cpp:91-108 | without a flag file the king is not tied |
| `Loader.LoadFlagFile` | src/pfconfig.cpp:95-108 | with a flag file, the king is tied iff some `'1'` in it has no `'0'`/`'1'` before it |
| `Loader.LoadIronSquares` | src/pfconfig.cpp:110-114 | a square is iron iff the grid file exists in the root and marks it |
| `Loader.LoadExampleValues` | src/pfconfig.cpp:90-114 | both files holding `"1"` in root `cfg`: the king is tied and the mask is exactly A9 |
| `Loader.LoadExampleSummary` | src/pfconfig.cpp:116-119 | for the same files, the summary is the two paths joined by the separator, flag file first |

## Left out

- File access is not modelled. The filesystem is a map from path to contents, and "exists and opens" means "is a key". Read errors partway through a file are not modelled.
- The current working directory is a parameter (`currentPath`), not a query of the process.
- `Locator.JoinPath` joins with `'/'` as a POSIX path join does for a relative name. It adds no separator after an empty root or a trailing `'/'`. Other path rules (absolute names, root names, normalisation) and the formatting of the path string are not modelled.
- `IronMask.SplitLines` models line reading with `'\n'` as the only terminator. A trailing `'\r'` stays part of its line, and other stream states are not modelled.
- File contents are taken to be bytes, one `char` per byte, every `char` below 256. The source indexes bytes (`line[col]`, `in.get`), so a multi-byte character in a grid line shifts later columns there; the model's `string` does not represent that.
- Lines of 2^31 bytes or more are outside the model. The source converts `line.size()` to a 32-bit `int` before taking the minimum with 9, which wraps for such lines (for some such lines no column, or fewer than 9 columns, are read); the model always reads min(9, length) columns.
- `Locator.ConfigRoots` does not model a failure of `current_path()`: when the working directory cannot be determined and the root directory is empty, the source throws, while the model always returns the given current path.
- The board mask is a set of (file, rank) squares, not a 128-bit integer. Square indexing and single-square masks belong to the board module, which is not part of this model. The values FILE_A = 0 and RANK_9 = 9 are taken from the engine's file and rank numbering.
- The handler is not passed into the locator. The locator returns the opened contents, and the caller applies the handler to them.
- The code that uses `kingTied` and `ironSquares` is not part of this model.
