# RELION STAR metadata reader and writer, modelled in Dafny

This project models `filtools/parse_star.py`, which reads and writes RELION
STAR metadata. A STAR file is a line-oriented text table. It may start with
an optics block (`data_optics` ... `data_particles`). Comment lines start
with `#`. The columns are declared inline as `_rlnName #N`, and every other
line is a data row of whitespace-separated tokens.

The module has two classes, and each becomes a Dafny class whose fields the
methods update in place:

- `readFilamentsFromStarFile` is `Filaments.FilamentStar`. It groups the data
  rows into filaments.
  - A filament is the rows that share a micrograph name and a tube-id token.
  - Micrographs and tube ids are visited in ascending `str` order.
  - Each group is sorted stably by track length and stored column-major
    (`list(zip(*rows))`) under keys 0, 1, 2, ...
- `readBlockDataFromStarfile` is `Block.BlockStar`. It keeps all rows as
  loaded (`particles`) and their column-major mirror (`particle_data_block`).
  The mirror's columns are tuples after loading, or lists when callers append
  them.

The pure parts are functions, and the properties are lemmas about them:

| module | what it holds |
|---|---|
| `PyText` | `str.strip()`, `str.split()`, `int()` and `str()` on ints, `<` on `str`, and Python indexing with negative indices |
| `Dicts` | the insertion-ordered `dict` |
| `Sorting` | `sorted()` of dict keys, and the stable key sort |
| `Pivot` | `zip(*rows)` |
| `StarScan` | the per-line state machine both readers share |
| `StarWrite` | what both writers emit |
| `Grouping` | how filaments are formed |

Python's exceptions are the `PyError` values of `Errors`. An operation that
can raise returns a `Result` or an `Option<PyError>`, and the first error in
the code's evaluation order decides which one is returned.

File contents are lines. Loading takes the raw lines of the file. Writing
returns a `Written` value: the file name and the lines written. Numbers read
by `float()` (track lengths and angles) go through an abstract parameter
`num: string -> Option<real>`, where `None` stands for the ValueError.

## Model

| member | source | states |
|---|---|---|
| PyText.Strip | filtools/parse_star.py:33 | the stripped line has no whitespace at either end, and a line that had none is unchanged |
| PyText.StripPadded | filtools/parse_star.py:185 | the writers' `' ' + comment + ' '` line strips back to the comment |
| PyText.Split | filtools/parse_star.py:55 | every field of `split()` is a nonempty run of non-whitespace |
| PyText.SplitTwo | filtools/parse_star.py:55-56 | `_name #N` splits into exactly the two tokens |
| PyText.SplitJoinCells | filtools/parse_star.py:202-203 | a data line written as cell + tab for each cell splits back into its cells when no cell is empty or holds whitespace |
| PyText.ParseInt | filtools/parse_star.py:56 | `int()` succeeds only on text containing a digit |
| PyText.IntToStr | filtools/parse_star.py:392 | `str()` of an int is nonempty and has no whitespace |
| PyText.ParseIntToStr | filtools/parse_star.py:148 | `int(str(n)) == n` for every int n |
| PyText.StrLtTotal | filtools/parse_star.py:85 | `<` on `str` orders any two different strings |
| PyText.StrLtTransitive | filtools/parse_star.py:85 | `<` on `str` is transitive |
| PyText.PyIndex | filtools/parse_star.py:314 | an index is valid iff -n <= i < n, and a negative index counts from the end |
| PyText.PyGet | filtools/parse_star.py:314 | `s[i]` succeeds iff -len(s) <= i < len(s), gives s[i] (s[len(s)+i] for negative i), and otherwise raises IndexError |
| Dicts.Put | filtools/parse_star.py:57 | `d[k] = v` keeps an existing key in its place and puts a new key last; every key is held once |
| Dicts.Get | filtools/parse_star.py:62 | `d[k]` gives the stored value, or KeyError(k) when k is missing |
| Sorting.SortedKeys | filtools/parse_star.py:70 | `sorted(d.keys())` holds every key once, in strictly ascending `str` order |
| Sorting.StrictlySortedUnique | filtools/parse_star.py:70 | two strictly ascending key lists with the same members are equal |
| Sorting.StableOrder | filtools/parse_star.py:89 | `sorted(..., key=...)` visits each position once, ordered by key with ties in original order |
| Sorting.StableOrderPermutes | filtools/parse_star.py:89 | the sort order is a permutation of the positions |
| Pivot.Zip | filtools/parse_star.py:93 | `zip(*rows)` has as many columns as the shortest row, and cell i of column j is cell j of row i |
| Pivot.ZipZip | filtools/parse_star.py:137 | transposing a rectangular nonempty table twice gives it back |
| Pivot.ZipRemoveRow | filtools/parse_star.py:137-140 | transposing, popping row p and transposing back removes cell p from every column, or leaves nothing when it was the only row |
| Pivot.ZipPop | filtools/parse_star.py:137-140 | after a pop, the rows read back from the new columns are the old rows without row q |
| Values.Render | filtools/parse_star.py:119 | `str()` writes a token as it is, and an int as text that `int()` reads back as the same number |
| StarScan.CleanLines | filtools/parse_star.py:33 | every kept line is nonempty and stripped, and there are no more lines than in the file |
| StarScan.CleanLinesAppend | filtools/parse_star.py:33 | cleaning two pieces of a file is cleaning the whole |
| StarScan.Classify | filtools/parse_star.py:39-64 | a declaration and a data row can only come outside an optics block; a data row's tokens are its split fields; only a declaration can fail |
| StarScan.DeclOf | filtools/parse_star.py:55-57 | `_name #N` declares name at N - 1; a missing second field is an IndexError and a bad number a ValueError |
| StarScan.ScanCollectsComments | filtools/parse_star.py:40-41 | every `#` line is appended to star_comments, in order, and nothing else is |
| StarScan.ScanOpticsBlock | filtools/parse_star.py:42-51 | `data_optics`, its body and `data_particles`: the first two go verbatim into optics_info and the reader leaves optics mode |
| StarScan.ScanDeclLines | filtools/parse_star.py:54-57 | reading declarations numbered from `first` puts names[i] at first - 1 + i, in order |
| StarScan.PutAllValues | filtools/parse_star.py:57 | fresh distinct names are numbered first - 1, first, ... |
| StarScan.PutAllKeys | filtools/parse_star.py:57 | fresh distinct names are appended to the key order |
| StarScan.ClassifyUnderscore | filtools/parse_star.py:258-261 | any `_` line that is not a reserved word is parsed as a declaration |
| StarScan.ClassifyDeclLine | filtools/parse_star.py:189 | the declaration the writers emit for number n reads back at index n - 1 |
| StarWrite.SaveStem | filtools/parse_star.py:160 | `filename[:-5] + '_updated'` drops the last five characters, or all of them in a shorter name |
| StarWrite.StemOfStarFile | filtools/parse_star.py:160 | `x.star` gives the stem `x_updated` |
| StarWrite.OverlayValues | filtools/parse_star.py:173-174 | after `hd[key] = nh[key]` for each key, every overwritten name has nh's number and the others keep theirs |
| StarWrite.OverlayKeys | filtools/parse_star.py:173-174 | the overwriting keeps the original names first and in their order |
| StarWrite.OrderedHeaders | filtools/parse_star.py:163-168 | the ordered header list names every header once, in ascending column number with ties in dict order; with no header it is a NameError |
| StarWrite.Preamble | filtools/parse_star.py:179-185 | the lines before the declarations: the first comment and the optics block verbatim when there is one, then the comment between spaces, the block marker and `loop_` last; six lines plus the optics block and four more; no comment is an IndexError |
| StarWrite.RowLines | filtools/parse_star.py:201-203 | one line per row, each cell followed by a tab |
| StarWrite.RowLinesSplit | filtools/parse_star.py:201-203 | the data lines split back into their rows |
| StarWrite.SavedColumns | filtools/parse_star.py:172-174 | with save_updated_data each edited name points at its new column, the other names are unchanged, and the original names keep their order |
| StarWrite.ColumnLinesFields | filtools/parse_star.py:199-203 | there are as many data lines as the shortest column has cells, and line i splits into cell i of each column |
| StarWrite.CleanHeaderSection | filtools/parse_star.py:179-189 | all a reader drops from the written header section is blank lines and the comment's padding |
| StarWrite.ReadBackHeader | filtools/parse_star.py:179-189 | reading back a written header gives the comment (twice with an optics block), the optics block, and the names declared at 0, 1, 2, ... in order |
| StarWrite.Redirect | filtools/parse_star.py:172-175 | the key loop repoints every edited name and appends the names, in key order, to the file name |
| StarWrite.Repoint | filtools/parse_star.py:398-400 | the key loop repoints every edited name |
| StarWrite.WriteHeader | filtools/parse_star.py:179-189 | the header lines are the preamble and then `_name #k` for k = 1..n, or an IndexError without a comment |
| Grouping.Positions | filtools/parse_star.py:75-81 | the positions of a name in the list, each once and ascending, are every position holding it |
| Grouping.Pick | filtools/parse_star.py:89 | `[s[i] for i in idx]` |
| Grouping.TubeTokens | filtools/parse_star.py:77 | the tube token of each row, or an IndexError when some row is too short |
| Grouping.TrackKeys | filtools/parse_star.py:89 | the track-length key of every row, or the error of the first row whose key fails |
| Grouping.GroupFilamentsSpec | filtools/parse_star.py:66-96 | each filament holds exactly the rows of its (micrograph, tube) pair in stable track-length order; pairs strictly ascend by micrograph then tube token as text; every row is in a filament; sizes add up to the row count |
| Grouping.TubeFilamentExact | filtools/parse_star.py:85-89 | a filament holds every row of its pair once and no other row, sorted by track length with ties in file order |
| Grouping.AllFilamentsChain | filtools/parse_star.py:70-85 | filaments come in strictly ascending (micrograph, tube token) order |
| Grouping.AllFilamentsSize | filtools/parse_star.py:75-81 | the filaments of the visited micrographs hold as many rows as those micrographs have |
| Grouping.AllFilamentsCover | filtools/parse_star.py:70-96 | every row of a visited micrograph lies in some filament |
| Grouping.CountSumAll | filtools/parse_star.py:75-81 | counting each micrograph's rows counts every row once |
| Grouping.AllFilamentsNoneEmpty | filtools/parse_star.py:85-95 | no filament is empty |
| Filaments.LoadSpec | filtools/parse_star.py:27-96 | a successful load gives well-formed rows and filaments whose rows all exist |
| Filaments.LoadSpecBuilt | filtools/parse_star.py:27-96 | a successful load keeps the scan of the cleaned lines, and its filaments are each exact and stably track-sorted, ascend strictly by (micrograph, tube ID), cover every row and hold as many rows as were read |
| Filaments.Columns | filtools/parse_star.py:93 | a group's columns are as many as its shortest row has cells, and each cell is a token of the group's rows |
| Filaments.UniformColumns | filtools/parse_star.py:93 | with rows of w tokens there are w columns, and `str()` of cell j of column c is token c of row j |
| Filaments.GroupedPair | filtools/parse_star.py:62-80 | every row of a filament carries its micrograph name and tube token |
| Filaments.MicrographRowsBy | filtools/parse_star.py:61-64 | full_data_dict maps each micrograph name seen to its rows in file order, and no other name |
| Filaments.BucketRows | filtools/parse_star.py:75-81 | filament_positions maps each tube token to the ascending positions of the rows that carry it |
| Filaments.StoreTubes | filtools/parse_star.py:85-96 | the tube loop stores the sorted column block of each tube id under the next keys, or stops with the first failing block's error |
| Filaments.StringColumn | filtools/parse_star.py:115-119 | the column as strings; a missing filament or name is a KeyError and a column number out of range an IndexError |
| Filaments.StringColumns | filtools/parse_star.py:196-197 | every named column read in turn, or the first failure |
| Filaments.DataLines | filtools/parse_star.py:192-203 | the data lines of filaments 0 .. count - 1 exist iff each filament can be written |
| Filaments.WriteFilament | filtools/parse_star.py:193-203 | the lines for one filament, gathered column by column and then row by row |
| Filaments.CollectColumns | filtools/parse_star.py:196-197 | the column loop of one filament |
| Filaments.WriteRows | filtools/parse_star.py:201-203 | the row loop writes one tab-separated line per row |
| Filaments.WriteData | filtools/parse_star.py:192-203 | the filament loop writes each filament's lines in turn |
| Filaments.WriteFails | filtools/parse_star.py:163-185 | the writer raises NameError with no headers, and IndexError with headers but no comment |
| Filaments.WriteSucceeds | filtools/parse_star.py:163-203 | with headers and a comment the write succeeds iff every filament can be written |
| Filaments.WrittenName | filtools/parse_star.py:160-177 | saving x.star writes x_updated.star, with the edited names inserted before `.star` when they are saved |
| Filaments.WrittenHeader | filtools/parse_star.py:179-203 | the written header reads back as the comment, the optics block and the names at 0, 1, 2, ...; the rest of the lines are the filaments' data lines |
| Filaments.FilamentLinesFields | filtools/parse_star.py:196-203 | a filament's data line i splits into cell i of each of its named columns |
| Filaments.FilamentStar.Init | filtools/parse_star.py:14-23 | the fields as `__init__` sets them before loading |
| Filaments.FilamentStar.ScanLines | filtools/parse_star.py:39-64 | the line loop leaves the fields and full_data_dict as the scan of the lines, or fails with its error |
| Filaments.FilamentStar.LoadFilamentsFromStar | filtools/parse_star.py:27-96 | loading succeeds iff the load specification does, and then leaves the scanned fields, the stored filaments and the counts it gives |
| Filaments.FilamentStar.FileMicrographs | filtools/parse_star.py:70-96 | the micrograph loop stores every filament and counts every row |
| Filaments.FilamentStar.FileMicrograph | filtools/parse_star.py:71-96 | one micrograph's filaments are stored after those already stored |
| Filaments.FilamentStar.BucketTubes | filtools/parse_star.py:72-81 | the position loop counts every row of the micrograph as a particle |
| Filaments.FilamentStar.GetAllFilamentData | filtools/parse_star.py:99-103 | filament n's columns, or a KeyError |
| Filaments.FilamentStar.GetNumberofParticlesinFilament | filtools/parse_star.py:142-143 | the length of the micrograph-name column of filament n, with each error case |
| Filaments.FilamentStar.GetRlnFilamentNumberandMicrograph | filtools/parse_star.py:145-150 | the first particle's micrograph name and `int()` of its tube id |
| Filaments.FilamentStar.AddFilamentDataColumn | filtools/parse_star.py:121-133 | the column is appended to filament n and the name recorded at len(headers) + len(new_data_headers) - 1, one short of the appended column; a missing filament changes nothing |
| Filaments.FilamentStar.RemoveParticleData | filtools/parse_star.py:135-140 | exactly particle p of filament n is removed through transpose, pop and transpose; the count drops by one and the other filaments are unchanged |
| Filaments.FilamentStar.WriteFilamentsToStarFile | filtools/parse_star.py:152-204 | the written file is the write specification of the fields, and headers are left repointed when there was a header |
| Filaments.FilamentStar.RedirectColumns | filtools/parse_star.py:170-175 | with save_updated_data the edited names are repointed and appended to the file name |
| Filaments.FilamentStar.LoadedColumn | filtools/parse_star.py:115-119 | after a load, column h of filament k reads, particle by particle, token h of each of its rows |
| Filaments.FilamentStar.LoadedCounts | filtools/parse_star.py:142-143 | after a load, each filament's particle count is its size, and the sizes add up to number_of_particles |
| Filaments.FilamentStar.LoadedIdentity | filtools/parse_star.py:145-150 | after a load, filament k's identity is its micrograph and `int()` of its tube token, or a ValueError |
| Block.TupleColumns | filtools/parse_star.py:273 | the loaded block has as many tuple columns as the shortest row has tokens, and cell i of column j is token j of row i |
| Block.BlockLoad | filtools/parse_star.py:226-273 | the load succeeds iff the line loop does and finds a data row; no data row is a NameError |
| Block.Positions | filtools/parse_star.py:349-354 | the positions holding the value, ascending, are all of them |
| Block.SelectRows | filtools/parse_star.py:373-384 | the selection loop keeps at most n rows |
| Block.SelectRowsExactly | filtools/parse_star.py:373-384 | with every angle readable, the rows kept are exactly those whose angle passes the test, in their original order |
| Block.KeptMembers | filtools/parse_star.py:375-384 | the k-th kept row is the row at the k-th passing position |
| Block.PickedComplete | filtools/parse_star.py:375-384 | every passing position is picked |
| Block.WrapBranch | filtools/parse_star.py:375-380 | for the range (80, 100), 260 is refused and -90 and 90 are kept |
| Block.DataColumn | filtools/parse_star.py:284-289 | the column as strings; a missing name is a KeyError and a column number out of range an IndexError |
| Block.SetCell | filtools/parse_star.py:346-347 | assigning a cell changes only that cell; a tuple column is a TypeError and an index out of range an IndexError |
| Block.Zeros | filtools/parse_star.py:339 | `[0] * n` is n zeros |
| Block.CopyColumnsPlan | filtools/parse_star.py:362-363 | when no target is read after being overwritten, each target column gets its source column and every other column is unchanged |
| Block.Selection | filtools/parse_star.py:365-390 | a selection is never empty and has at most number_of_particles rows |
| Block.BlockColumns | filtools/parse_star.py:434-438 | every declared column as strings, or the first failure |
| Block.BlockWriteFails | filtools/parse_star.py:403-426 | the block writer raises NameError with no headers, and IndexError with headers but no comment |
| Block.BlockWriteParts | filtools/parse_star.py:418-444 | the written lines are the preamble, the declarations and the rows of the whole block |
| Block.BlockDeclared | filtools/parse_star.py:398-408 | the declarations name each header once in ascending column number; with save_new_data they include the new names |
| Block.BlockRowsWritten | filtools/parse_star.py:434-444 | after the header, line m + k splits into cell k of every declared column, with as many lines as the shortest column has cells |
| Block.BlockWritePrefix | filtools/parse_star.py:426 | without optics the file starts with the padded comment and the `_data_particles` marker |
| Block.BlockHeaderUnreadable | filtools/parse_star.py:426 | without an optics block, reading back a written block fails with an IndexError at the `_data_particles` line |
| Block.StepMarker | filtools/parse_star.py:258-260 | outside an optics block, a reader takes `_data_particles` as a declaration without a number, an IndexError |
| Block.CellUpdate | filtools/parse_star.py:343-347 | a point update looks up the column number first (KeyError), then assigns the cell |
| Block.SelectLoop | filtools/parse_star.py:373-384 | the particle loop gives the rows the selection specification keeps |
| Block.GatherColumns | filtools/parse_star.py:434-438 | the column loop gives the declared columns or the first failure |
| Block.CopyEach | filtools/parse_star.py:362-363 | the key loop gives the copied columns and the error that stopped it |
| Block.BlockWriteSteps | filtools/parse_star.py:394-444 | the writer's steps, in order, give the block write specification |
| Block.LoadedColumnReads | filtools/parse_star.py:284-289 | after a load, getStringDataColumn of a column every row has gives back each row's token |
| Block.LoadedColumnsFrozen | filtools/parse_star.py:346-347 | after a load, updateParticleData on a declared column in range is a TypeError |
| Block.EmptyColumnUpdates | filtools/parse_star.py:325-344 | after addEmptyDataColumn, updateParticleDataNewHeader on the new name sets exactly that cell of the new column |
| Block.AddedColumnMisplaced | filtools/parse_star.py:303-306 | the name addColumntoBlockData records points at the column before the appended one, so an update through it hits that column |
| Block.BlockStar.Init | filtools/parse_star.py:214-222 | the fields as `__init__` sets them before loading |
| Block.BlockStar.ScanLines | filtools/parse_star.py:240-269 | the line loop leaves the fields and the rows as the scan of the lines, and counts every row |
| Block.BlockStar.LoadBlockDataFromStar | filtools/parse_star.py:226-273 | loading succeeds iff the block load does, and then leaves the scanned fields, the rows and their tuple columns |
| Block.BlockStar.GetOneParticleData | filtools/parse_star.py:309-314 | row p of the loaded rows, counted from the end for negative p, when p is in range; otherwise an IndexError |
| Block.BlockStar.GetParticleSpecificDataString | filtools/parse_star.py:316-317 | the cell itself, with KeyError and IndexError in the code's order |
| Block.BlockStar.AddColumntoBlockData | filtools/parse_star.py:291-306 | each type and shape error, and that the name is recorded at len(headers) + len(new_data_headers) - 1, one short of the appended column |
| Block.BlockStar.AddEmptyDataColumn | filtools/parse_star.py:325-341 | a duplicate name is a ValueError and changes nothing; otherwise the name is recorded at len(headers) + len(new_data_headers) and a column of zeros is appended |
| Block.BlockStar.UpdateParticleDataNewHeader | filtools/parse_star.py:343-344 | the block afterwards is the point update through new_data_headers, or unchanged with its error |
| Block.BlockStar.UpdateParticleData | filtools/parse_star.py:346-347 | the block afterwards is the point update through headers, or unchanged with its error |
| Block.BlockStar.GetParticlePositionsBasedOnMetaData | filtools/parse_star.py:349-354 | i is in the result iff cell i of the column equals the value |
| Block.BlockStar.UpdateColumnsWithNewData | filtools/parse_star.py:357-363 | the block afterwards is the key-by-key copy, stopped at the first failing key |
| Block.BlockStar.SelectAngularRange | filtools/parse_star.py:365-392 | `paticles` and the block become the selection and its tuple columns, and the range name is recorded at 0; particles and number_of_particles stay as they were; on an error nothing changes |
| Block.BlockStar.WriteBlockDatatoStar | filtools/parse_star.py:394-446 | the written file is the block write specification of the fields, and headers are left repointed |
| Block.BlockStar.RepointNew | filtools/parse_star.py:398-400 | with save_new_data every new name is declared at its column |
| Block.BlockStar.RedirectColumns | filtools/parse_star.py:410-415 | with save_updated_data the edited names are repointed and appended to the file name |

## The selection test

`selectAngularRange` keeps an angle `a` when `lo < a < hi`, or otherwise when
`lo - 180 < a < hi - 180`: two open intervals. For the range (80, 100) that
refuses 260 and keeps -90; `Block.WrapBranch` states both cases.

## Left out

- File I/O. The input is the file's raw lines, and the output is a
  `Written` value. The file opened before `star_comments[0]` fails is not
  modelled.
- `print` output.
- The constructors calling the loaders. Each class has an `Init`
  constructor that sets the fields, and a separate load method over raw lines.
- getNumpyFilamentColumn, getNumpyDataColumn and getParticleSpecificDataFloat.
  These are float32 arrays with a fallback to strings. `float()` is the
  abstract `num` parameter wherever the code compares numbers, and IEEE
  rounding is not modelled. `num` gives `None` or a real, so the `nan` and
  `inf` tokens that Python's `float()` accepts are outside the model.
- Reading back a block written with an optics block. No `data_particles`
  line is written, so a reader stays in optics mode through the
  declarations and rows and files them into optics_info. The model states
  the read-back only without an optics block (Block.BlockHeaderUnreadable).
- getParticleSpecificNewData. It assigns an undefined name, so every call is
  a NameError.
- Block.BlockStar.AddColumntoBlockData: a column is taken as a list of cells.
  - `isList` stands for `type(c) is list`. The `or not np.ndarray` test is
    always false.
  - `len()` of the first cell is modelled for strings (their length) and ints
    (a TypeError). Nested lists are left out.
- Aliasing. After `updateColumnsWithNewData` two columns are the same list
  object, so a later point update through one also changes the other. Columns
  are values here.
- Partial state left by a load that raises. The load methods state only
  their error, not the fields half-filled before it.
- Block.BlockStar.SelectAngularRange:
  - `lower_limit` and `upper_limit` are ints. They are the values that
    `str()` renders in the recorded name.
  - An angle column of strings, which numpy falls back to, makes the
    comparison a TypeError. Mixed numeric and text cells are not
    distinguished further.
- Python's `int()` is modelled on ASCII digits only, with optional
  underscores. Other Unicode digits are not modelled.
