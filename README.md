# A verified model of the goChem STF trajectory codecs and text helpers

This project models, in Dafny, the core of the goChem library:

- its STF ("simple trajectory format") codecs:
  - the reference Python reader and writer (`traj/stf/python/stf.py`);
  - the Go STF reader and writer (`traj/stf/stf.go`);
  - the Go compressed-XYZ reader and writer (`traj/ctf/stf.go`);
- the sequential integer and string logic around them:
  - the Gromacs topology line editor (`top/old.go`);
  - histograms (`histo/histo.go`);
  - the Ramachandran backbone index scanner (`ramacalc.go`);
  - atom selection, renumbering, cutting, capping, tagging and merging (`handy.go`);
  - the DDCMD header parser (`ddc/ddc.go`);
  - the PDB and XYZ text helpers (`files.go`).

It proves properties of that model.

An STF file is a header of `key=value` lines closed by a `** natoms` line. Then each frame has one line of three numbers per atom and a `*` terminator line. The terminator may carry a box.

The module layout follows the source files:

| module | models |
|---|---|
| `PyStf` | `traj/stf/python/stf.py` |
| `GoStf` | `traj/stf/stf.go` |
| `GoCtf` | `traj/ctf/stf.go` |
| `TopOld` | `top/old.go` |
| `Histo` | `histo/histo.go` |
| `Rama` | `ramacalc.go` |
| `Handy` | `handy.go` |
| `Ddc` | `ddc/ddc.go` |
| `Files` | `files.go` |

Four modules are shared:

- `Wrappers`: the result types.
- `Text`: the Go and Python string functions the code calls.
- `Numbers`: integer and fixed-point decimal text, and rounding.
- `Atoms`: the atom record.

Modelling conventions:

- **Streams are text.** A compressed stream is the text it carries once decompressed. Reading a line follows Go's `bufio.Reader.ReadString('\n')`, or Python's line iteration. A writer is a class whose `out` field is the text written so far.
- **Float parsing is a parameter.** It is `parse: string -> Option<real>`. The round-trip lemmas require only that `parse` reads back the canonical decimal text the writers produce (`Numbers.ReadsDecimals`).
- **Floats are reals.** Rounding is round-half-to-even, as in Python's `round` and Go's fixed-point formatting.
- **Objects the source updates in place are classes.** This covers the readers and writers, `TermSelect`, `TopInMem`, the histogram `Data` and `Matrix`, and the DDCMD header and object. Their methods are proved against specification functions. Go's `int` is 64 bits wide.
- **Go panics are values or preconditions.** A panic the file contents can trigger is an outcome: `Panic` in `Outcome`, `Panicked` in `FrameStatus`. A panic that only a caller's misuse can trigger, and that the source documents, is a `requires`.
- **Closures are data.** The line functions of `top/old.go` are values of the datatype `LineFn`. A variable that a closure captures and changes is a field of a `Cell` object. Headers that share one closure therefore share its state, as in Go.

Where the code does not do what it evidently intends, the model has both a member for the code as written, with a lemma that shows the difference, and the corrected member the rest of the model uses. These are listed under "## Findings".

## Model

| member | source | states |
|---|---|---|
| PyStf.Lookup | traj/stf/python/stf.py:62-64 | no value exactly when no item has the key; a value found belongs to an item with that key |
| PyStf.Put | traj/stf/python/stf.py:59-60 | assigning `d[k] = v` keeps keys distinct, makes `k` map to `v`, leaves every other key alone, and appends a new key at the end (insertion order) |
| PyStf.Replace | traj/stf/python/stf.py:121-122 | rewriting the value of an existing key keeps the length and changes exactly the items with that key |
| PyStf.LookupReplace | traj/stf/python/stf.py:121-122 | after `d[k] = v` on a present key, `k` reads `v` and every other key reads as before |
| PyStf.WriterDict | traj/stf/python/stf.py:119-122 | the written dictionary always has a digit-string `prec`; no dictionary or a missing/non-digit `prec` gives `prec = "1"`, a digit `prec` keeps the dictionary as given, and other keys are untouched |
| PyStf.Quantize | traj/stf/python/stf.py:141 | `round(x * 10^prec)` is within one half of `x * 10^prec` |
| PyStf.QuantizeClose | traj/stf/python/stf.py:141 | a quantized coordinate divided by the scale is within `1 / (2 * scale)` of the original |
| PyStf.RowWords | traj/stf/python/stf.py:139-141 | a row line has exactly three words, the decimal texts of the three rounded coordinates |
| PyStf.BoxFields | traj/stf/python/stf.py:150-151 | the box line carries nine fields, each the `%5.3f` text of one box value |
| PyStf.RowsUpTo | traj/stf/python/stf.py:139-141 | writing rows stops (IndexError) exactly when one of the first `n` rows has fewer than three values; otherwise the text is the rows' lines in order |
| PyStf.FrameWrite | traj/stf/python/stf.py:133-152 | fewer rows than `natoms` raises ValueError and writes nothing; with enough well-formed rows the text is the `natoms` row lines followed by the box line; no exception only if every checked condition holds |
| PyStf.FrameWriteShort | traj/stf/python/stf.py:139-141 | a short row inside the first `natoms` rows raises IndexError after the rows before it were written, and no box line |
| PyStf.FrameWriteAll | traj/stf/python/stf.py:139-152 | when every row is writable the frame is the rows' text plus the box line |
| PyStf.RowsAfterShort | traj/stf/python/stf.py:139-141 | once a short row is met, later rows add nothing to the text and the stop flag stays set |
| PyStf.WritableWrite | traj/stf/python/stf.py:133-152 | `wnext` raises nothing exactly when there are `natoms` rows of at least three values (and a first row of three); the text is then the rows and the box line |
| PyStf.ClosedWrite | traj/stf/python/stf.py:133-152 | on a closed file `wnext` raises IndexError exactly when there are no rows and `natoms <= 0` (the `data[0]` check), and ValueError otherwise; when one of its checks fails first, it is that check's exception |
| PyStf.Writer.constructor | traj/stf/python/stf.py:111-131 | the stream begins with one `k=v` line per dictionary item, in order, then `** natoms`; the scale is `10^prec` of the written dictionary |
| PyStf.Writer.WNext | traj/stf/python/stf.py:133-152 | on an open writer, appends exactly the frame text of `FrameWrite` and reports its exception; on a closed one, writes nothing and raises `ClosedWrite`; dictionary, scale and atom count are unchanged either way |
| PyStf.Writer.Close | traj/stf/python/stf.py:153-154 | closes the writer without writing anything more |
| PyStf.FrameOut | traj/stf/python/stf.py:133-152 | the loop that builds one frame's text computes `FrameWrite` |
| PyStf.RowsWrite | traj/stf/python/stf.py:139-141 | the row loop stops at the first short row (or after `n` rows) with the text of the rows before it |
| PyStf.PyNextLine | traj/stf/python/stf.py:75 | iterating a text stream yields nothing only at the end of the text; each line is non-empty and line plus rest is the text |
| PyStf.ScanHeader | traj/stf/python/stf.py:51-57 | a header scan that stops, stops at a line containing `**` |
| PyStf.HeaderDict | traj/stf/python/stf.py:58-60 | splitting the header into `k=v` tokens succeeds exactly when every token has one `=`; keys stay distinct; otherwise ValueError |
| PyStf.NatomsOf | traj/stf/python/stf.py:54 | `int(i.split()[-1])` succeeds exactly when the line has a last word that is a non-negative integer, and gives that integer |
| PyStf.OpenAsWritten | traj/stf/python/stf.py:41-65 | as written, the reader keeps precision 100 and an empty dictionary whatever the header says; it opens every stream `Open` opens, with the same atom count, header and position, and fails on a stream without a `**` line |
| PyStf.Open | traj/stf/python/stf.py:41-65 | a successful open stops at the `**` line, keeps the header text and the text after it, has a positive divisor and a dictionary with distinct keys |
| PyStf.StoreCell | traj/stf/python/stf.py:87-89 | storing `float(n[c]) / prec` succeeds exactly when the token exists, parses and the row is inside the frame, and then changes only that cell; on error the frame is unchanged |
| PyStf.StoreRow | traj/stf/python/stf.py:86-90 | storing a row keeps the frame's size |
| PyStf.FillBox | traj/stf/python/stf.py:81-82 | filling the box keeps its size |
| PyStf.ReadFrame | traj/stf/python/stf.py:74-91 | reading one frame keeps frame and box sizes |
| PyStf.Reader.constructor | traj/stf/python/stf.py:41-55 | a new reader holds the opened state, a zero frame of `3 * natoms` values, no frames read, and is readable |
| PyStf.Reader.Next | traj/stf/python/stf.py:71-91 | when not readable raises EOFError and changes nothing; otherwise the remaining text, the frame, the box and the exception are those of `ReadFrame`, and the frame count grows by one exactly when a frame was completed |
| PyStf.Reader.Store | traj/stf/python/stf.py:87-89 | the in-place store into the frame array computes `StoreCell` |
| PyStf.Reader.FillBoxFrom | traj/stf/python/stf.py:78-82 | the in-place box loop computes `FillBox` |
| PyStf.Reader.Close | traj/stf/python/stf.py:101-104 | closing makes the reader unreadable and keeps the rest |
| PyStf.OpenReader | traj/stf/python/stf.py:41-65 | opening succeeds exactly when `Open` does, with the same error otherwise, and then gives a fresh readable reader in `Open`'s state with a zero frame |
| PyStf.EntryWord | traj/stf/python/stf.py:129-130 | a `k=v` entry of plain key and value is one word without `*` or newline that splits back into `[k, v]` |
| PyStf.SpacedFields | traj/stf/python/stf.py:57-58 | joining words each prefixed by a space and splitting on whitespace gives back the words |
| PyStf.ScanDictLines | traj/stf/python/stf.py:51-57 | scanning the written `k=v` lines appends each entry to the header text, one space before each |
| PyStf.ScanPlainLine | traj/stf/python/stf.py:53-57 | a line without `*` is added to the header after a space |
| PyStf.SentinelRead | traj/stf/python/stf.py:53-54 | the written `** natoms` line stops the scan and reads back as `natoms` |
| PyStf.SentinelScan | traj/stf/python/stf.py:53-56 | any line beginning with `**` stops the header scan |
| PyStf.HeaderDictOfEntries | traj/stf/python/stf.py:58-60 | reading the written entries back rebuilds the dictionary exactly |
| PyStf.WriterDictPlain | traj/stf/python/stf.py:119-122 | defaulting `prec` keeps a plain dictionary plain |
| PyStf.HeaderRoundTrip | traj/stf/python/stf.py:41-65 | opening what the writer's header wrote gives back the same dictionary, the same atom count and the writer's scale as divisor, leaving the frames unread |
| PyStf.HeaderAsWritten | traj/stf/python/stf.py:51-65 | as written, opening the same header gives an empty dictionary and divisor 100 whatever `prec` was written |
| PyStf.RowLine | traj/stf/python/stf.py:141 | a written row is one line without `*` whose words are the three rounded coordinates |
| PyStf.StoredRow | traj/stf/python/stf.py:87-89 | the row read back holds `round(x * scale) / prec` at its three places and leaves every other cell alone |
| PyStf.RowRead | traj/stf/python/stf.py:85-90 | reading a written row stores it and goes on with the next row |
| PyStf.RowSkip | traj/stf/python/stf.py:85 | with `skip` a written row is passed over and the frame is unchanged |
| PyStf.RowsRead | traj/stf/python/stf.py:75-90 | reading the written rows from row `i` on stores each rounded coordinate divided by `prec`, keeps earlier rows, and leaves the reader at the text after them |
| PyStf.RowsSkip | traj/stf/python/stf.py:85 | with `skip` all written rows are passed over |
| PyStf.BoxBack | traj/stf/python/stf.py:78-82 | the box read back holds the three-decimal values of the nine written numbers when both the written and the target box have nine places, and is otherwise unchanged |
| PyStf.FillBoxRead | traj/stf/python/stf.py:81-82 | the nine written box words all parse back, each into its own place |
| PyStf.BoxLineFields | traj/stf/python/stf.py:150-151 | the words of a written box line are `*` and the nine three-decimal numbers, whatever the padding |
| PyStf.BoxFill | traj/stf/python/stf.py:78-82 | a written nine-value box line has ten words and fills the box without error |
| PyStf.BareFields | traj/stf/python/stf.py:142 | the box line written for a short box has the single word `*` |
| PyStf.BoxRead | traj/stf/python/stf.py:77-84 | reading a written box line ends the frame without error, with the box filled from it |
| PyStf.FrameRoundTrip | traj/stf/python/stf.py:71-91 | reading a written frame gives every coordinate as `round(x * scale) / prec`, the box back, no exception, and stops right after the frame |
| PyStf.FrameSkipRoundTrip | traj/stf/python/stf.py:85 | skipping a written frame leaves the frame as it was and still reads its box |
| PyStf.WrittenFrameReads | traj/stf/python/stf.py:71-91 | what `wnext` writes for writable data is read back frame-exactly by `next` |
| PyStf.TrajectoryRoundTrip | traj/stf/python/stf.py:41-152 | a header plus a frame as written opens with the writer's atom count and scale, and the frame reads back as `round(x * scale) / scale` |
| PyStf.TrajectoryAsWritten | traj/stf/python/stf.py:41-152 | as written, the same trajectory reads back as `round(x * scale) / 100` |
| PyStf.PrecIgnoredExample | traj/stf/python/stf.py:42-65 | with the default writer (`prec = 1`, scale 10) the coordinate 1.0 is read back as 0.1 as written and as 1.0 as intended |
| GoStf.RowWords | traj/stf/stf.go:67-74 | a row has three words, each coordinate formatted with three decimals (`'f'`, precision 3) |
| GoStf.WriteError | traj/stf/stf.go:56-66 | `WNext` fails exactly when the writer is not writeable, the coordinates are nil, or their count differs from `natoms` |
| GoStf.Writer.constructor | traj/stf/stf.go:84-136 | the stream starts with one `k=v` line per header entry (in the map's iteration order, none for a nil map) and then `** natoms`; the writer is writeable |
| GoStf.Writer.WNext | traj/stf/stf.go:56-81 | returns the error of `WriteError`; without error appends one line per atom and the `*` line, with an error appends nothing |
| GoStf.Writer.Close | traj/stf/stf.go:35-40 | closing makes the writer unwriteable and writes nothing more |
| GoStf.ScanHeader | traj/stf/stf.go:182-207 | the corrected header scan never panics and a header it accepts has an atom count that fits Go's `int` and consumed at least one line |
| GoStf.Open | traj/stf/stf.go:149-210 | opening as intended (with a made map) never panics |
| GoStf.SetCoords | traj/stf/stf.go:237-244 | storing a row succeeds exactly when each remaining coordinate parses, otherwise gives the "un parseable" error; cells outside the row being stored are untouched |
| GoStf.SetCoordsError | traj/stf/stf.go:239-242 | the error of a row that does not store is the "un parseable" message followed by `ParseFloat`'s error for a coordinate that does not parse |
| GoStf.RowRead | traj/stf/stf.go:217-245 | reading one atom line consumes text and keeps the frame's size; without a target matrix the frame is untouched; end-of-trajectory only happens at the first atom on an empty rest; a stop is never a success and never a panic, and a nil-error message only arises as a failure |
| GoStf.EndFrame | traj/stf/stf.go:248-254 | reading the terminator leaves the frame alone and is never end-of-trajectory |
| GoStf.NextFrame | traj/stf/stf.go:216-257 | a frame read keeps the frame's size, leaves it untouched without a target, reports end-of-trajectory only on an empty stream at the first atom, and never panics |
| GoStf.OpenAsWritten | traj/stf/stf.go:149-210 | as written, `New` either panics or gives what `Open` gives; a file it opens has an empty header map, since any `k=v` line panics on the nil map |
| GoStf.NextAsWritten | traj/stf/stf.go:216-257 | as written, `Next` consumes the same text as `NextFrame`, and whenever it does not panic on the nil `err` it has the same status and frame |
| GoStf.Reader.constructor | traj/stf/stf.go:181-209 | a new reader is readable and starts at the text after the header |
| GoStf.Reader.Next | traj/stf/stf.go:216-257 | the status, the rest of the stream and the matrix after the call are those of `NextFrame`; the reader closes itself exactly at end-of-trajectory |
| GoStf.Reader.ReadRows | traj/stf/stf.go:217-246 | the atom loop either stops where `NextFrame` stops before the terminator, with its status, stream and matrix, or reaches the terminator with `NextFrame`'s outcome unchanged |
| GoStf.RowStepped | traj/stf/stf.go:218-245 | after one row read as `RowRead` says, a stop is `NextFrame`'s own outcome, and a stored row leaves the rest of the frame's outcome unchanged |
| GoStf.Reader.ReadRow | traj/stf/stf.go:218-244 | one pass of the atom loop computes `RowRead` on the stream and the matrix |
| GoStf.Reader.ReadEnd | traj/stf/stf.go:248-256 | after the atom loop the terminator is read as `NextFrame` says |
| GoStf.Reader.SetRow | traj/stf/stf.go:237-244 | the in-place coordinate loop computes `SetCoords` |
| GoStf.Reader.Close | traj/stf/stf.go:259-266 | closing makes the reader unreadable |
| GoStf.New | traj/stf/stf.go:149-210 | `New` succeeds exactly when `Open` does, with the same error otherwise, never panics, and gives a fresh readable reader at `Open`'s rest and atom count together with the header map |
| GoStf.OrderingEmpty | traj/stf/stf.go:126-130 | an iteration order of a map is empty exactly when the map is |
| GoStf.Extend | traj/stf/stf.go:206 | storing the keys read so far gives exactly the keys of the accumulator and of the list, the later value winning |
| GoStf.ExtendAll | traj/stf/stf.go:128-130 | storing every entry of a map, in its iteration order, into an empty map rebuilds the map |
| GoStf.EntryText | traj/stf/stf.go:129 | a `k=v` header line of plain key and value has no newline, no `**`, and splits back to `[k, v]` |
| GoStf.ScanEntryLine | traj/stf/stf.go:202-206 | a one-`=` line without `**` stores its key and value and the scan goes on |
| GoStf.EntryScan | traj/stf/stf.go:202-206 | a written `k=v` line is read back as the entry `k := v` |
| GoStf.HeaderLinesScan | traj/stf/stf.go:182-207 | scanning all written header lines stores all their entries |
| GoStf.ScanSentinelLine | traj/stf/stf.go:189-200 | a `**` line whose second word is an integer ends the header with that atom count |
| GoStf.SentinelScan | traj/stf/stf.go:189-200 | the written `** natoms` line reads back as `natoms` |
| GoStf.HeaderRoundTrip | traj/stf/stf.go:149-210 | opening a written header gives the written map (empty for none) and atom count, with the frames unread |
| GoStf.EntryLineAsWritten | traj/stf/stf.go:202-206 | as written, any well-formed header entry line panics on the write to the nil map |
| GoStf.SentinelAsWritten | traj/stf/stf.go:189-200 | as written, a header of only the `**` line opens, with a nil (empty) map |
| GoStf.FirstEntryAsWritten | traj/stf/stf.go:149-210 | as written, opening any file written with a non-empty header map panics |
| GoStf.HeaderAsWritten | traj/stf/stf.go:149-210 | as written, opening a written header panics exactly when the written map was non-empty, and otherwise gives an empty map |
| GoStf.StoredRow | traj/stf/stf.go:237-244 | a stored row holds the three-decimal values of its coordinates and leaves all other cells alone |
| GoStf.SetCoordsRead | traj/stf/stf.go:237-244 | the words of a written row all parse and store the written values from the given column on |
| GoStf.SetCoordsRow | traj/stf/stf.go:237-244 | storing a written row gives `StoredRow` and no error |
| GoStf.RowLineRead | traj/stf/stf.go:218-244 | a three-word line whose words parse is stored and the loop goes on |
| GoStf.WrittenRowRead | traj/stf/stf.go:67-78 | a row as `WNext` writes it is read back into its row of the matrix |
| GoStf.StoredFrame | traj/stf/stf.go:217-246 | after the atom loop every row from `i` on holds its written three-decimal values and other cells are unchanged |
| GoStf.RowsScan | traj/stf/stf.go:217-246 | reading the written rows from atom `i` on stores them all and goes to the terminator |
| GoStf.EndRead | traj/stf/stf.go:248-256 | the `*` line completes the frame with no error |
| GoStf.FrameRoundTrip | traj/stf/stf.go:216-257 | a frame as `WNext` writes it reads back completely, with the rest of the stream right after it |
| GoStf.FrameAsWritten | traj/stf/stf.go:216-257 | the as-written `Next` reads a well-formed frame exactly as the corrected one |
| GoStf.TrajectoryRoundTrip | traj/stf/stf.go:84-257 | a header plus a frame as written opens with the written atom count and map, and the frame reads back |
| GoStf.AsWrittenPanics | traj/stf/stf.go:216-257 | the as-written `Next` panics exactly when the corrected one reports an error built from a nil error, and otherwise agrees with it |
| GoStf.ShortRowAsWritten | traj/stf/stf.go:229-232 | an atom line without three fields is an error as intended but a nil dereference panic as written |
| GoStf.EndOfTrajectory | traj/stf/stf.go:218-227 | an exhausted stream is the last frame when atoms are expected, and a terminator error for zero atoms |
| GoStf.EntryPanicExample | traj/stf/stf.go:149-210 | the file header `a=b` / `** 1` panics as written and opens with `{a: b}` and one atom as intended |
| GoStf.ShortSentinelAsWritten | traj/stf/stf.go:189-193 | a `**` line without an atom count panics as written (nil error) and is an error as intended |
| GoCtf.Symbol | traj/ctf/stf.go:144-148 | an atom's symbol is kept when it has one and is `X` when it is empty, so a written symbol is never empty |
| GoCtf.HeaderEntries | traj/ctf/stf.go:100-103 | one `k=v` piece per header key, in the map's iteration order |
| GoCtf.HeaderLine | traj/ctf/stf.go:99-105 | the header line of the first frame ends with a newline, and is only the newline for an empty header |
| GoCtf.AtomLineShape | traj/ctf/stf.go:110-122 | an atom line begins with the atom's symbol and a blank and ends with a newline |
| GoCtf.FrameText | traj/ctf/stf.go:97-123 | the first line a reader takes from a written frame is its atom count, and what follows is the second line and then the atom lines |
| GoCtf.Writer.constructor | traj/ctf/stf.go:128-194 | a new writer has written nothing, holds one symbol per atom (`X` for an empty one), the header to write with the first frame, and no frames |
| GoCtf.Writer.WNext | traj/ctf/stf.go:85-125 | the same errors as the STF writer; without error appends the atom-count line, the `**`-joined header on the first frame or an empty line later, and one `symbol x y z` line per atom, and counts the frame |
| GoCtf.Writer.WriteAtoms | traj/ctf/stf.go:110-122 | the atom loop appends one line per atom and touches nothing else |
| GoCtf.AtomsText | traj/ctf/stf.go:110-122 | the loop that builds the atom lines gives the lines of every atom in order |
| GoCtf.Writer.Close | traj/ctf/stf.go:64-69 | closing makes the writer unwriteable and writes nothing more |
| GoCtf.HeaderMap | traj/ctf/stf.go:254-265 | reading the `**`-separated pieces only adds keys |
| GoCtf.Open | traj/ctf/stf.go:208-267 | opening never panics and an atom count read fits Go's `int` |
| GoCtf.SkipLines | traj/ctf/stf.go:283-294 | on the first frame nothing is skipped; later frames skip two lines without touching the frame, and a stop is a last frame or an error |
| GoCtf.RowRead | traj/ctf/stf.go:296-322 | reading one atom line consumes text and keeps the frame's size (untouched without a target); a stop is never a success and never a panic |
| GoCtf.Rows | traj/ctf/stf.go:295-323 | the atom loop keeps the frame's size, leaves it untouched without a target, and never panics |
| GoCtf.NextFrame | traj/ctf/stf.go:281-326 | a frame read keeps the frame's size, leaves it untouched without a target, and never panics |
| GoCtf.Reader.constructor | traj/ctf/stf.go:208-267 | a new reader starts after the header with no frames read and, as in the source, is not marked readable |
| GoCtf.Reader.Next | traj/ctf/stf.go:281-326 | status, rest of the stream and matrix are those of `NextFrame`; `framesread` grows by one exactly on a frame read |
| GoCtf.Reader.SkipFrameStart | traj/ctf/stf.go:283-294 | the skip of a later frame's first two lines computes `SkipLines` |
| GoCtf.Reader.ReadRow | traj/ctf/stf.go:296-322 | one pass of the atom loop computes `RowRead` on the stream and the matrix |
| GoCtf.Reader.SetRow | traj/ctf/stf.go:314-321 | the in-place coordinate loop computes the shared coordinate store |
| GoCtf.Reader.Close | traj/ctf/stf.go:328-335 | closing leaves the reader unreadable and keeps the stream position |
| GoCtf.New | traj/ctf/stf.go:208-267 | `New` succeeds exactly when `Open` does, with the same error otherwise, never panics, and gives a fresh reader at `Open`'s rest and atom count, with no frames read, and the header map |
| GoCtf.HeaderLineText | traj/ctf/stf.go:99-105 | the written header line is the entries and a final empty piece joined by `**`, one line without newline inside, and splitting it on `**` gives the pieces back |
| GoCtf.HeaderMapOfEntries | traj/ctf/stf.go:260-265 | reading written header pieces stores exactly the written entries |
| GoCtf.FirstLines | traj/ctf/stf.go:240-266 | an atom-count line and a header line are read as that count and that header |
| GoCtf.OpenRoundTrip | traj/ctf/stf.go:208-267 | opening the first frame's two lines as written gives back the atom count and the header map |
| GoCtf.AtomLineRead | traj/ctf/stf.go:296-322 | a four-word line whose coordinates parse is stored and the loop goes on |
| GoCtf.WrittenAtomRead | traj/ctf/stf.go:110-122 | an atom line as the writer writes it reads back into its row |
| GoCtf.AtomsScan | traj/ctf/stf.go:295-323 | reading the written atom lines from atom `i` on stores them all |
| GoCtf.FirstFrameRoundTrip | traj/ctf/stf.go:281-326 | the first frame's atom lines read back completely |
| GoCtf.SkipWritten | traj/ctf/stf.go:283-294 | on a later frame the written count line and empty line are skipped |
| GoCtf.LaterFrameRoundTrip | traj/ctf/stf.go:281-326 | a later frame as written reads back completely |
| GoCtf.TrajectoryRoundTrip | traj/ctf/stf.go:85-326 | a first frame as written opens with its header and atom count and its atoms read back |
| GoCtf.TruncatedFrame | traj/ctf/stf.go:296-302 | a frame cut short at an atom line is reported as the last frame, with the rows before it stored |
| GoCtf.EndOfTrajectory | traj/ctf/stf.go:269-302 | an exhausted stream is the last frame |
| Histo.NormaRoundTrip | histo/histo.go:362-375 | once points were added, normalising then un-normalising (or the reverse) gives back the same bins with the flag set accordingly; without data both do nothing |
| Histo.Norma | histo/histo.go:362-375 | normalising or un-normalising keeps the id, the total, the dividers and the number of bins; with a total of zero or less nothing changes; otherwise the flag becomes the one asked for and each bin is divided by the total (normalising) or multiplied by it (un-normalising) |
| Histo.BinFrom | histo/histo.go:327-336 | the bin found for a value is the first bin from `j` whose lower divider is at most the value and whose upper divider is above it; none is found only when no bin holds it, and the value is then dropped |
| Histo.BinFromInRange | histo/histo.go:327-336 | with increasing dividers a value between the `j`-th and the last divider always finds a bin |
| Histo.BinOfIncreasing | histo/histo.go:327-336 | with increasing dividers a value is counted exactly when it lies in `[first, last)`, and only in the one bin that holds it |
| Histo.BinOf | histo/histo.go:327-336 | the bin found for a value is the first whose interval holds it, and there is none exactly when no bin holds it |
| Histo.Counted | histo/histo.go:326-337 | counting points keeps the number of bins |
| Histo.Hits | histo/histo.go:326-337 | a bin gains at most one count per point |
| Histo.CountedBins | histo/histo.go:326-337 | after counting, each bin holds its old value plus the number of points whose bin it is |
| Histo.AddDataKeeps | histo/histo.go:320-343 | `AddData` keeps the flag, the id, the dividers and the number of bins, and adds the number of points (counted or not) to the total |
| Histo.AddDataOf | histo/histo.go:320-343 | adding points keeps the flag, the dividers, the id and the number of bins, and the total grows by the number of points |
| Histo.AddDataCounts | histo/histo.go:326-338 | on an un-normalised histogram every bin grows by the points that fall in it |
| Histo.AddDataNormalizedShape | histo/histo.go:320-343 | on a normalised histogram the bins are un-normalised, counted, and normalised again by the new total |
| Histo.Binwise | histo/histo.go:399-407 | the bin loop of `Add`/`Sub` keeps the receiver's number of bins |
| Histo.BinwiseMatching | histo/histo.go:399-407 | with equal dividers and enough bins the loop does not panic and writes `op(a[k], b[k])` into every bin below the last divider, leaving the others |
| Histo.CombineMatching | histo/histo.go:393-432 | `Add`/`Sub` of histograms with the same dividers gives those dividers and `a + b`, `a - b` or `abs(a - b)` bin by bin, without panic |
| Histo.CombineMismatch | histo/histo.go:399-402 | a divider that differs between the operands makes `Add`/`Sub` panic |
| Histo.CombineOf | histo/histo.go:393-432 | the result takes the new dividers and keeps the number of bins; operands with different numbers of dividers panic and leave the bins as they were; a combination that does not panic had operands with the same dividers |
| Histo.BinwiseAgrees | histo/histo.go:399-407 | when the bin loop finishes without panicking, the two operands' dividers agree at every index from the loop's start |
| Histo.CombineAsWritten | histo/histo.go:393-432 | as written, the receiver's dividers become zeros; when only one operand is the receiver, the other operand's non-zero dividers make it panic |
| Histo.GetCopySlice | histo/histo.go:458-470 | the destination has exactly `N` places: the destination given cut to `N` when it is long enough, otherwise new zeros |
| Histo.CopyAsWritten | histo/histo.go:377-386 | the copy as written keeps the length |
| Histo.CopyAsWrittenZeros | histo/histo.go:377-386 | as written, `floats.ScaleTo(d, 0, src)` returns zeros, so any non-zero histogram or divider list is not copied |
| Histo.AccumulateAsWritten | histo/histo.go:393-408 | as written, `h.Add(h, x)` on two one-bin histograms with dividers `[0, 1]` panics, because the receiver's dividers became zeros; the intended sum is the bin `5` |
| Histo.Data.constructor | histo/histo.go:298-317 | a new histogram holds a copy of the dividers, one zero bin between each two, no data, not normalised, and id -1 unless one is given |
| Histo.Data.NormaUnnorma | histo/histo.go:362-375 | the new state is `Norma` of the old one |
| Histo.Data.Normalize | histo/histo.go:351-353 | normalises the bins (see `NormaRoundTrip`) |
| Histo.Data.UnNormalize | histo/histo.go:356-358 | turns the bins back into counts |
| Histo.Data.AddData | histo/histo.go:320-343 | the new state is the old one with the points added (see `AddDataKeeps`, `AddDataCounts`), and the histogram stays well formed |
| Histo.Data.Combine | histo/histo.go:393-432 | the receiver's dividers, bins and panic are those of the bin loop over `a`'s dividers (read as the new receiver dividers when `b` is the receiver); id, flag and total are unchanged |
| Histo.Data.Add | histo/histo.go:393-408 | `Combine` with `a + b` |
| Histo.Data.Sub | histo/histo.go:412-432 | `Combine` with `a - b`, or `abs(a - b)` when asked |
| Histo.Data.CopyDividers | histo/histo.go:378-381 | as intended, returns a copy of the dividers |
| Histo.Data.Copy | histo/histo.go:383-386 | as intended, returns a copy of the bins |
| Histo.ScaleTo | histo/histo.go:380 | the element loop of `floats.ScaleTo` multiplies each element by `c` |
| Histo.ScaleOne | histo/histo.go:380 | scaling by one copies, which is what the copies need |
| Histo.FindBin | histo/histo.go:327-336 | the dividers loop finds `BinOf` the value |
| Histo.Matrix.constructor | histo/histo.go:40-47 | a new matrix has the given rows, columns and dividers |
| Histo.Matrix.Check | histo/histo.go:131-147 | no error exactly when row and column are below the bounds; out of range it panics exactly when asked to, with the column message winning over the row message |
| Histo.Matrix.RC2I | histo/histo.go:111-114 | `rc2i` gives an index exactly for in-range indices and panics otherwise, never returning an error |
| Histo.RC2IInverse | histo/histo.go:111-114 | for valid row and column the index is inside the matrix and divides back into the same row and column |
| Histo.Matrix.CopyDividers | histo/histo.go:54-60 | as intended, nil stays nil and the dividers are copied; as written, the copy is zeros (see "Findings") |
| Rama.FixRange | ramacalc.go:104-108 | a two-element range ending in -1 gets the end 999999999; any other `resran` is unchanged |
| Rama.Reset | ramacalc.go:123-130 | entering a new chain forgets every backbone index; staying in the chain keeps them |
| Rama.Gather | ramacalc.go:131-145 | each backbone slot picked up is an earlier atom of the current chain with the right name (`C`, `N`, `CA`, `C`, `N`) in a selected chain |
| Rama.Emit | ramacalc.go:147-166 | earlier entries are kept, every entry is a well-formed dihedral set (right names, same chain, consecutive residue numbers, wanted residue), and nothing panics; its three outcomes are stated by `Rama.EmitOutcomes` |
| Rama.EmitOutcomes | ramacalc.go:147-166 | an incomplete backbone leaves the cursor and the list alone. A complete one gives `Incorrect backbone …` with the five residue numbers exactly when its residue is wanted and not consecutively numbered. Otherwise the cursor moves on to `(C, Npost, -1, -1, -1)`, and a wanted residue's `RamaSet(Cprev, N, CA, C, Npost, r2, CA's residue name)` is appended; an unwanted one appends nothing |
| Rama.RamaStep | ramacalc.go:119-167 | one atom of the loop keeps the slots consistent, only appends entries, keeps them well formed, and never panics |
| Rama.RamaScan | ramacalc.go:118-170 | the scan from any atom on only appends entries, all of them well formed when the earlier ones are, and never panics |
| Rama.RamaList | ramacalc.go:102-171 | `resran` is fixed in place first; nil data gives "Nil data given"; otherwise the result is the scan of all atoms from the initial state |
| Rama.ScanAll | ramacalc.go:118-168 | the atom loop computes `RamaScan` from the start |
| Rama.ScanAtom | ramacalc.go:119-167 | one pass of the loop body computes `RamaStep` |
| Rama.EmitBackbone | ramacalc.go:147-166 | the emitting part of the loop body computes `Emit` |
| Rama.FindBackbone | ramacalc.go:123-145 | the gathering part of the loop body computes `Gather` after `Reset` |
| Rama.Kept | ramacalc.go:82-91 | the filtered list holds only input sets whose residue name is in the filter exactly when it should be, and is no longer than the input |
| Rama.FilterIndex | ramacalc.go:80-90 | the index has one entry per input set |
| Rama.FilterIndexKept | ramacalc.go:82-91 | an index entry is -1 exactly for dropped sets, and otherwise points at the place of that same set in the filtered list |
| Rama.FilterIndexOrdered | ramacalc.go:82-91 | kept sets keep their order |
| Rama.KeptCovered | ramacalc.go:82-91 | every place of the filtered list is pointed at by some index entry |
| Rama.RamaResidueFilter | ramacalc.go:78-93 | returns the filtered list and a fresh index array whose contents are `FilterIndex` |
| Handy.IsIn | handy.go:157-180 | `isInInt` and `isInString` answer exactly whether the value is in the slice (a nil slice holds nothing) |
| Handy.Selection | handy.go:38-48 | an atom index is selected exactly when the atom is in one of the residues and in one of the chains (any chain when none is given); indices come in increasing order |
| Handy.Molecules2Atoms | handy.go:38-48 | the atom loop returns `Selection` |
| Handy.ResCount | handy.go:268-277 | the residue counter never exceeds the number of atoms |
| Handy.Renumbered | handy.go:267-279 | renumbering keeps the number of atoms |
| Handy.RenumberedAtOne | handy.go:270-278 | atom `i` gets id `i + 1` and as residue number the count of residue changes up to it, nothing else changing |
| Handy.RenumberedAt | handy.go:270-278 | the same for every atom at once |
| Handy.RenumberedFields | handy.go:270-278 | only the id and the residue number change, and ids are `1..n` |
| Handy.RenumberedSteps | handy.go:268-277 | the first residue number is 1 (0 when the first atom's residue is -1, the initial `prevres`), and it grows by one exactly where the residue changes |
| Handy.RenumberedMolIdAgain | handy.go:267-279 | renumbering twice gives each atom the same residue number as once |
| Handy.RenumberedIdempotent | handy.go:267-279 | `FixNumbering` is idempotent unless the first atom's residue number is -1 |
| Handy.FixNumbering | handy.go:267-279 | the in-place loop leaves the atoms `Renumbered` |
| Handy.NCap | handy.go:345-358 | only `C`, `O` and `CA` atoms change: they move to the next residue with the given name; `C` becomes `CTZ`, `CA` becomes `HCZ` with symbol `H`; no other field changes |
| Handy.CCap | handy.go:360-373 | only `N`, `H` and `CA` atoms change: they move to the previous residue with the given name; `N` becomes `NTZ`, `CA` becomes `HNZ` with symbol `H`; no other field changes |
| Handy.FirstResName | handy.go:297-304 | the name found is that of the first atom of residue `nter` in the chain, or empty when there is none |
| Handy.FindResName | handy.go:297-304 | the search loop returns `FirstResName` |
| Handy.CapFrom | handy.go:310-324 | the capping scan keeps the number of atoms and the atoms before its position (what it does to each atom is stated by `Handy.CapFromCapped` and `Handy.CapFromFrame`) |
| Handy.CapFromCapped | handy.go:310-324 | in the list's chain, an atom of residue `nter - 1` becomes `makeNcap`'s N cap named `nres`, and an atom that is then in residue `cter + 1` becomes `makeCcap`'s C cap, named after the last atom of residue `cter` the scan has passed (`cresname`) |
| Handy.CapFromFrame | handy.go:310-324 | atoms of other chains and of residues other than `nter - 1` and `cter + 1` are untouched; chains and ids never change |
| Handy.CapLists | handy.go:294-325 | the capping loop keeps the number of atoms and never stops with success; an empty list `k` is the `v[0]` panic, and a list `k` whose N-terminal residue is not in the atoms is the error `list k contains residue numbers out of boundaries` |
| Handy.CappedTo | handy.go:294-325 | capping the lists from `k` up to `l` keeps the number of atoms |
| Handy.CapListsFailure | handy.go:294-309 | the capping loop stops only at a list that is empty, or whose N-terminal residue is missing from the atoms as the earlier lists left them, with that list's panic or error |
| Handy.KeptAtomsInLists | handy.go:326-330 | taking each list in its own chain, every kept atom is in one list's residues and that list's chain |
| Handy.KeptAtoms | handy.go:326-330 | every kept index is an atom of one of the residues of the lists from `k` on |
| Handy.CapFromNothing | handy.go:310-324 | nothing is capped when the chain has no atom next to the cut |
| Handy.CutBackRefOtherChain | handy.go:326-330 | as written, cutting residue 1 of chain A and residue 3 of chain B also keeps residue 1 of chain B; taking each list in its own chain does not |
| Handy.CutAllChainsKeeps | handy.go:326-330 | as written, the selection for residue 1 of chain A also keeps residue 1 of chain B |
| Handy.CutOwnChainDrops | handy.go:326-330 | taking each list in its own chain drops residue 1 of chain B |
| Handy.CapListsExample | handy.go:294-325 | the counterexample's lists cap nothing |
| Handy.CapAtoms | handy.go:310-324 | the in-place capping loop computes `CapFrom` |
| Handy.CapAll | handy.go:294-325 | the in-place loop over the lists computes `CapLists`, including where it stops |
| Handy.KeepAll | handy.go:326-330 | the collecting loop gives the kept atoms of every list, each in its own chain |
| Handy.CutBackRef | handy.go:288-343 | the atoms afterwards and the outcome are those of `CutBackRefOf` (mismatched lengths, an empty list and a missing N-terminal residue as stated there and in `Handy.CutBackRefFailure`), otherwise the kept atoms are returned |
| Handy.CutBackRefOf | handy.go:288-343 | the cut keeps the number of atoms; mismatched chain and list counts is an error with the atoms unchanged; an empty first list panics and a first list whose N-terminal residue is missing is `list 0 contains residue numbers out of boundaries`, both with the atoms unchanged; on success every index returned is an atom and every list was non-empty |
| Handy.CutBackRefFailure | handy.go:288-309 | `CutBackRef` fails only on mismatched lengths, an empty list, or a list whose N-terminal residue cannot be found |
| Handy.Tagged | handy.go:448-458 | tagging keeps the number of atoms |
| Handy.TagCountIsSize | handy.go:448-458 | the count returned is the number of listed atoms with the name |
| Handy.TaggedAtoms | handy.go:450-456 | exactly the listed atoms with the name get tag 1; all others are unchanged |
| Handy.TagAtomsByName | handy.go:448-458 | the in-place loop leaves the atoms `Tagged` and returns their count |
| Handy.TagCount | handy.go:448-458 | the count is at most the number of atoms, and zero when no atom has the name |
| Handy.CutAtom | handy.go:404-438 | an atom outside the listed residues and chains is unchanged; only the name, the symbol and the residue number can change; a changed residue number is -1, for a backbone atom the cut removes; a renamed atom becomes a hydrogen and keeps its residue |
| Handy.Cutted | handy.go:402-444 | a cut keeps the number of atoms, and an empty chain or residue list changes nothing |
| Handy.CutSelection | handy.go:402-444 | the indices returned after a cut are the atoms `Molecules2Atoms` would pick before it, less the edited backbone atoms moved to residue -1 (unless -1 is itself listed) |
| Handy.CutAtoms | handy.go:404-419 | the in-place loop over the atoms leaves them `Cutted` |
| Handy.CutBetaRef | handy.go:402-424 | the atoms are cut in place, `CA` becoming `HB4` and `C`, `H`, `HA`, `O`, `N` leaving their residue, and the indices returned are the selection of the listed residues after the cut |
| Handy.CutAlphaRef | handy.go:426-444 | the atoms are cut in place, `C` and `N` becoming `HA2` and `HA3` and `H`, `O` leaving their residue, and the indices returned are the selection of the listed residues after the cut |
| Handy.Merged | handy.go:489-511 | the merged topology has as many atoms as both |
| Handy.MergedAssociative | handy.go:489-511 | merging molecules that all have charge and multiplicity does not depend on grouping |
| Handy.MergedUnit | handy.go:489-511 | an empty neutral singlet is a unit of merging |
| Handy.MergeAtomers | handy.go:489-511 | the position-by-position fill gives A's atoms then B's with the combined charge and multiplicity |
| Ddc.ZFill | ddc/ddc.go:499-507 | as written: only zeros are prepended, and the result has `target + 1` bytes when the input is at most `target` bytes long (the input unchanged otherwise) |
| Ddc.ZFillTo | ddc/ddc.go:498 | as documented: only zeros are prepended, up to exactly `target` bytes |
| Ddc.IsAllSpaces | ddc/ddc.go:509-517 | true exactly when every character is Unicode white space |
| Ddc.AllSepNoFields | ddc/ddc.go:509-517 | a string is all spaces exactly when it splits into no fields |
| Ddc.ParseNFloats | ddc/ddc.go:519-529 | every string parses, giving the floats in order, or the result is "Couldn't parse a float" |
| Ddc.ParseNInts | ddc/ddc.go:530-540 | every string parses, giving the ints in order, or the result is "Couldn't parse an int" |
| Ddc.NoNewlines | ddc/ddc.go:192 | removing newlines leaves no newline, never lengthens, and changes nothing without one |
| Ddc.BlankAllSpaces | ddc/ddc.go:205-208 | the recursive blank test agrees with `isallspaces`' every-character test: a piece trims to empty exactly when all its characters are white space |
| Ddc.Pieces | ddc/ddc.go:206-209 | each `;`-separated segment is read on its own, in order |
| Ddc.Classify | ddc/ddc.go:206-209 | a segment is skipped exactly when it is blank, and is an entry without `=` exactly when it is not blank and has no `=` |
| Ddc.StoreAsWrittenPanics | ddc/ddc.go:206-209 | as written the entry loop never returns an error, and panics exactly when some segment has no `=` |
| Ddc.StoreAsWritten | ddc/ddc.go:203-209 | as written, whenever the entry loop gets through without panicking it builds the map `Store` builds |
| Ddc.ObjectGuardDead | ddc/ddc.go:199-202 | the "not delimited" error cannot happen as written; a text with no brace panics instead |
| Ddc.ObjectTrailingPanics | ddc/ddc.go:199-209 | as written, an object whose last entry ends in `;` (`{k=v;}`) panics on the empty last segment |
| Ddc.ObjectAsWritten | ddc/ddc.go:191-212 | as written, whenever `parseObj` returns a map it is the one `ObjectOf` reads |
| Ddc.Store | ddc/ddc.go:203-209 | as intended, storing the entries succeeds or fails only with "Header entry without '='" |
| Ddc.StoreOk | ddc/ddc.go:206-209 | storing succeeds exactly when no segment is a non-blank piece without `=` |
| Ddc.StoreHas | ddc/ddc.go:206-209 | a key is in the map exactly when some segment stores it |
| Ddc.StoreValue | ddc/ddc.go:206-209 | a key holds the value of its last entry |
| Ddc.ObjectOf | ddc/ddc.go:191-212 | as intended, parsing never panics, and a text without a braced body gives "Object not delimited by {}" |
| Ddc.ObjectOfBody | ddc/ddc.go:191-212 | a braced body is read as the entries between its `;`s |
| Ddc.ObjectTrailingRead | ddc/ddc.go:191-212 | as intended, `{k=v;}` reads as the map `{k: v}` |
| Ddc.FirstMissing | ddc/ddc.go:76-82 | none is missing exactly when every required key is present; otherwise the first required key absent, in order |
| Ddc.MissingKey | ddc/ddc.go:77-82 | the check loop finds `FirstMissing` |
| Ddc.RequiredPresent | ddc/ddc.go:76-82 | the check passes exactly when all eight required keys are present |
| Ddc.HeaderOutcome | ddc/ddc.go:73-122 | a missing key fails with its name and changes nothing; parsing succeeds exactly when `h` has nine numbers that parse, the counts parse and the time parses; it panics exactly when the time field is empty; on success every field is read as `parseObj` assigns it |
| Ddc.HeaderOf | ddc/ddc.go:73-122 | without the required keys the header is unchanged and the outcome an error; a header that is read carries the object's `datatype`; the offset is always kept |
| Ddc.BoxStage | ddc/ddc.go:83-92 | fewer than nine `h` values is an error; otherwise the box has three values, each the parse of its field; offset and data type are kept |
| Ddc.CountStage | ddc/ddc.go:94-102 | a count that does not parse gives "Couldn't parse an int"; otherwise the counts are the `Atoi` values of their fields and the field names and types come from the object; offset, data type and box are kept |
| Ddc.Counted | ddc/ddc.go:83-102 | reading the box and the counts keeps the offset and the time, and sets the data type, the three counts and the box to the values read |
| Ddc.TimeStage | ddc/ddc.go:103-119 | the time is read exactly when its fields are non-empty and the first parses; empty time fields panic; on failure the header is unchanged, and the error carries `ParseFloat`'s message; the time read is the parsed value times 0.001; only time, species, field units and field format change |
| Ddc.HeaderUnreadable | ddc/ddc.go:84-100 | with the keys present but `h` or the counts unreadable, parsing is an error |
| Ddc.HeaderReadable | ddc/ddc.go:83-108 | once `h` and the counts are read, the outcome is that of the time step |
| Ddc.TimeOutcome | ddc/ddc.go:103-119 | the time step succeeds exactly when the first word parses (times 0.001) and panics exactly when there is none; on success the optional fields are read when present |
| Ddc.Header.constructor | ddc/ddc.go:59-71 | a new header is all zero values |
| Ddc.Header.ParseObj | ddc/ddc.go:73-122 | the new header and outcome are `HeaderOf` the old one |
| Ddc.Header.ReadBox | ddc/ddc.go:83-92 | reading `datatype` and `h` computes the box stage |
| Ddc.Header.ReadCounts | ddc/ddc.go:94-102 | reading the counts and the field lists computes the count stage |
| Ddc.Header.SetCounts | ddc/ddc.go:98-102 | sets the three counts and the two field lists and nothing else |
| Ddc.Header.ReadTime | ddc/ddc.go:103-119 | reading the time and the optional fields computes the time stage |
| Ddc.Header.ReadOptionals | ddc/ddc.go:111-119 | `species`, `field_format` and `field_units` are read when present and kept otherwise |
| Ddc.BitOf | ddc/ddc.go:219-233 | a type of fewer than two bytes panics; `u4`, `u8`, `f4`, `f8` (by their first two characters) give `unit32`, `uint64`, `float32`, `float64` with 4 or 8 bytes; anything else is an error |
| Ddc.Leading | ddc/ddc.go:218-236 | the loop gets through exactly the leading types that are accepted |
| Ddc.FieldFormats | ddc/ddc.go:216-236 | the formats and sizes collected are those of the accepted leading types, in order |
| Ddc.StoreSegments | ddc/ddc.go:204-209 | the entry loop computes `Store` of the segments |
| Ddc.DdcObj.constructor | ddc/ddc.go:125-137 | a new object holds the header and no formats |
| Ddc.DdcObj.ParseObject | ddc/ddc.go:191-212 | the intended parse of a header object |
| Ddc.DdcObj.BitFormat | ddc/ddc.go:214-241 | when every type is accepted, the formats and sizes are stored, one per type; otherwise the first rejected type's error or panic is returned and formats are kept; the endianness is set as soon as one type is accepted |
| TopOld.IndexOf | top/old.go:474-477 | the result is -1 exactly when the index is not in `tosub`, and otherwise is the first position holding it |
| TopOld.ChangeMaps | top/old.go:470-479 | `change` adds `replacement[0]` to every index when `tosub` is empty; otherwise it maps the first occurrence of an index in `tosub` to the replacement at that position and leaves every other index alone |
| TopOld.SwitchPlan | top/old.go:480-484 | a single negative `tosub` entry becomes "add to every index from its absolute value on" with an empty `tosub`; any other `tosub` is kept as given with a lower bound of 0 |
| TopOld.ShiftZeroAsWritten | top/old.go:549-551 | as written, `ShiftAtomNumbersFunctions(0, k)` builds the plan `tosub == [0]`, so with `k != 0` index 5 keeps its value instead of moving by `k` |
| TopOld.ShiftPlan | top/old.go:546-551 | the shift plan adds `toadd` to every index and has lower bound `after`; for `after > 0` it is exactly the plan the Go code builds |
| TopOld.ShiftPlanAsWritten | top/old.go:546-551 | as written, a positive `after` gives the plan that moves indices from `after` by `toadd`, while `after <= 0` gives the plan that replaces the single index `-after` by `toadd` and moves nothing |
| TopOld.ShiftMoves | top/old.go:546-551 | under the shift plan, a field is moved exactly when its index is at least `after`, and then it moves by `toadd` |
| TopOld.Cell.constructor | top/old.go:342 | a new closure state holds the given previous line and no seen lines |
| TopOld.Renumbered | top/old.go:502-508 | each field whose parsed index the predicate selects is replaced by its new index, right-aligned to width 3; every other field is kept, and the count of fields is unchanged |
| TopOld.FieldCount | top/old.go:494-496 | the number of leading fields read as atom indices is `atoms` when it lies in 1..number of fields, and otherwise the number of fields |
| TopOld.RenumberLine | top/old.go:492-510 | the `adder` closure succeeds exactly when the first `FieldCount` fields parse as integers, and it never panics; on failure the error is `Can't parse numbers in line <line> ` followed by `strconv.Atoi`'s error on the first field that does not parse |
| TopOld.RenumberLineReads | top/old.go:502-509 | after a successful renumbering, splitting the output line into fields gives back the input fields with the selected indices replaced by their new values |
| TopOld.SitesLine | top/old.go:513-532 | the `vsitesn` closure fails exactly when some field is not an integer, and panics exactly when all fields parse but there are fewer than 2 of them; the error is `Can't parse numbers in line <line> ` followed by `strconv.Atoi`'s error on the first field that does not parse |
| TopOld.SitesLineReads | top/old.go:519-531 | after a successful `vsitesn` rewrite, the output's fields are the input's fields, with field 0 and fields 2 onwards replaced when their index is above `after` |
| TopOld.RenumberAsWritten | top/old.go:491-511 | as written, the closure stores the number of fields it used back into its captured `atoms`, which returns the new stored count; the line it produces is the same as `RenumberLine` |
| TopOld.StickyCountAsWritten | top/old.go:494-496 | an `exclusions` closure first shown a 2-field line renumbers only 2 of the 3 fields of its next line, where a fresh closure renumbers all 3 |
| TopOld.LinesSample | top/old.go:498-509 | with a plan that adds 10, "3 4 5" becomes " 13  14 5" when 2 fields are atoms and " 13  14  15" when all are |
| TopOld.RenumberSample | top/old.go:502-508 | fields "3 4 5" with indices [3,4] and a plan that adds 10 become [" 13", " 14", "5"] |
| TopOld.DropAtomLine | top/old.go:387-396 | the `DeleteAtomsFunction` closure panics exactly on a line with no fields and succeeds exactly when its first field parses; the result is "" when that index is in `todel` and the line itself otherwise; the error is `Can't parse numbers in line <line> ` followed by `strconv.Atoi`'s error on the first field |
| TopOld.DropDuplicateStep | top/old.go:343-349 | the `DelDuplicatedFunctions` closure returns "" when the line equals the previous line and the line itself otherwise, and then records the line as the previous line |
| TopOld.DropRepeatedStep | top/old.go:322-328 | the `DelRepeatedFunctions` closure returns "" for a line it has already seen; otherwise it returns the line and appends it to the seen lines |
| TopOld.Apply | top/old.go:322-328 | calling a line function gives the result of `Step` from the closure's old state, and leaves its state cell in the new state `Step` gives |
| TopOld.DropAtomsCall | top/old.go:387-396 | the method computes `DropAtomLine` |
| TopOld.RenumberCall | top/old.go:492-510 | the method computes `RenumberLine` |
| TopOld.RenumberFields | top/old.go:502-508 | the loop over the parsed indices computes `Renumbered` with the "at least `after`" selection |
| TopOld.RenumberFrom | top/old.go:519-530 | from a start position on, each field whose index is at least the bound is replaced by its new padded value, and every other field is unchanged |
| TopOld.SitesCall | top/old.go:513-532 | the method computes `SitesLine` |
| TopOld.SitesFields | top/old.go:519-530 | the two loops compute `Renumbered` with the `vsitesn` selection: field 0 and fields 2 onwards, when the index is above `after` |
| TopOld.RenumberedFields | top/old.go:509 | joining renumbered fields with spaces and splitting the result again gives the renumbered fields without their padding |
| TopOld.RenumberedPiece | top/old.go:507 | each renumbered field is blank padding followed by a non-empty word with no spaces |
| TopOld.BelowAsym | top/old.go:143 | the byte-wise string order used by `slices.Sort` is asymmetric |
| TopOld.BelowTotal | top/old.go:143 | of two different strings, one is below the other |
| TopOld.BelowTrans | top/old.go:143 | the string order is transitive |
| TopOld.Insert | top/old.go:143 | inserting a string into a sorted list keeps it sorted and adds exactly that string to the list's multiset |
| TopOld.SortStrings | top/old.go:143 | the result is sorted and is a permutation of the input |
| TopOld.SetManyKeys | top/old.go:101-112 | after `SetMany`'s loop the map has the old keys plus every given header, because unsupported headers are stored too |
| TopOld.SetManyError | top/old.go:101-109 | `SetMany`'s loop reports an error exactly when some given header was not already in the map |
| TopOld.SetManyKeeps | top/old.go:101-112 | a header that is in the map and not among the given headers keeps its function |
| TopOld.SetManyLast | top/old.go:110 | a header gets the function of its last occurrence in the list |
| TopOld.SetManySame | top/old.go:329-334 | when every given function is the same one, every given header ends up with it |
| TopOld.TermSelect.constructor | top/old.go:18-30 | a new selection holds the nine standard headers, each set to nil |
| TopOld.TermSelect.NTerms | top/old.go:32-34 | returns the number of headers |
| TopOld.TermSelect.GetErr | top/old.go:36-46 | an unknown header gives the "unsuported value" error, a nil function gives the warning error, and a set function is returned with no error; there is no error exactly when the header holds a function |
| TopOld.TermSelect.Get | top/old.go:49-55 | returns the header's entry (the Go code panics on an unknown header, which is the precondition here) |
| TopOld.TermSelect.GetOrDefault | top/old.go:57-66 | returns the header's function, or the do-nothing function when the entry is nil |
| TopOld.TermSelect.Set | top/old.go:71-77 | replaces the entry of a known header and changes nothing else |
| TopOld.TermSelect.SetErr | top/old.go:80-88 | a known header is set with no error; an unknown header gives an error and leaves the map unchanged |
| TopOld.TermSelect.SetMany | top/old.go:93-114 | no header list gives "No term given" and more headers than functions gives "Not enough strings", both leaving the map unchanged; otherwise the map and the error are `SetManyOf`'s |
| TopOld.TermSelect.SetAll | top/old.go:119-128 | every header gets the first given function, or the do-nothing function when none is given or the first is nil |
| TopOld.TermSelect.Headers | top/old.go:132-145 | the result is sorted and is a permutation of the headers, restricted to those holding a function when the first flag is true |
| TopOld.LinesStep | top/old.go:171-174 | reading a file into lines takes each line up to its newline and drops the newline, until end of input |
| TopOld.LinesOfFileText | top/old.go:161-180 | reading back the text `WriteToFile` produces gives the same lines, when no line holds a newline |
| TopOld.FileTextOfLines | top/old.go:223-235 | writing out the lines read from a text that ends in a newline gives back that text |
| TopOld.FileTextOfLinesNext | top/old.go:171-174 | one step of the line reader keeps the round trip of the rest of the text |
| TopOld.TrimBlank | top/old.go:245 | trimming tab, ';', space and newline leaves "" exactly when the line is made only of those characters |
| TopOld.CleanedTo | top/old.go:240-253 | the cleaned lines are never more than the original |
| TopOld.CleanedKeepsText | top/old.go:240-253 | cleaning drops only blank lines: the non-blank lines, in order, are the same before and after |
| TopOld.CleanedKeeps | top/old.go:244-250 | a non-blank line, the last line, and a blank line just before a header are all kept |
| TopOld.KeptIn | top/old.go:244-250 | a line that the drop rule does not remove is in the cleaned result |
| TopOld.TopInMem.constructor | top/old.go:157-159 | a new topology holds the given lines with the cursor at 0 |
| TopOld.TopInMem.FromText | top/old.go:161-180 | the lines of a file's text are read with their newlines removed and the cursor at 0 |
| TopOld.TopInMem.Copy | top/old.go:183-187 | the copy is a new object with the same lines and the cursor at 0 |
| TopOld.TopInMem.Reset | top/old.go:190-192 | the cursor goes back to 0 and the lines are unchanged |
| TopOld.TopInMem.Len | top/old.go:195-197 | returns the number of lines |
| TopOld.TopInMem.WriteString | top/old.go:200-204 | appends the string as one more line and returns its length in bytes |
| TopOld.TopInMem.ReplaceString | top/old.go:207-209 | replaces the line last read and nothing else |
| TopOld.TopInMem.ReadString | top/old.go:214-221 | past the last line it reports end of input and puts the cursor back to 0; otherwise it returns the next line and moves the cursor by one |
| TopOld.TopInMem.WriteToFile | top/old.go:228-233 | the text written is each line followed by a newline |
| TopOld.TopInMem.Clean | top/old.go:240-253 | the new lines are `CleanedTo` of the old ones and the cursor is unchanged |
| TopOld.Call | top/old.go:304 | calling a line function keeps the set of closure states |
| TopOld.LineStep | top/old.go:266-308 | one line's edit keeps the closure states well formed and stops only on an error or a panic |
| TopOld.PartStep | top/old.go:277-308 | the edit of a line's part before its comment stops only on an error or a panic |
| TopOld.RunStep | top/old.go:304-308 | running the current function leaves the current section unchanged and stops only on an error or a panic |
| TopOld.Edited | top/old.go:265-310 | editing from a line on keeps the number of lines and the set of closure states |
| TopOld.CallIn | top/old.go:304 | calling a function of the selection computes `Call` on the closure states |
| TopOld.EditLine | top/old.go:266-308 | the method computes `LineStep` |
| TopOld.EditPart | top/old.go:277-308 | the method computes `PartStep` |
| TopOld.EditFilled | top/old.go:285-308 | for a line with at least one field, the method computes `PartStep` |
| TopOld.Section | top/old.go:293-300 | a header whose entry holds a function becomes the current section; a header with a nil or missing entry leaves the current function in place |
| TopOld.Run | top/old.go:304-308 | the method computes `RunStep` |
| TopOld.FuncApplier | top/old.go:259-315 | the lines, the cursor, the closure states and the result are those of `Applied`: starting from the "default" function, every line is read and rewritten in place until the end or the first error |
| TopOld.Applied | top/old.go:259-315 | applying the functions keeps the number of lines and the cells of the closures' state; it succeeds exactly when it ran to the end and put the cursor back at 0, and a failure leaves the cursor after the line it started from, within the file |
| TopOld.Turn | top/old.go:265-309 | one turn of the loop either finishes with `Edited`'s result or reads one line and leaves the rest equal to `Edited` from there |
| TopOld.Rewrite | top/old.go:266-308 | rewriting the line just read either finishes with `Edited`'s result or leaves the rest equal to `Edited` from the next line |
| TopOld.EditAt | top/old.go:266-308 | the edit of line `k` either stops, and then `Edited` stops there, or puts a new line, and then `Edited` carries on from the next line |
| TopOld.Read | top/old.go:265 | reading a line through the reader interface behaves as `ReadString` and leaves the closure states alone |
| TopOld.Replace | top/old.go:267 | replacing through the interface behaves as `ReplaceString` and leaves the closure states alone |
| TopOld.EditedEnd | top/old.go:311-314 | at the end of input the edit succeeds, with the lines unchanged and the cursor back at 0 |
| TopOld.EditedNext | top/old.go:266-308 | `Edited` unfolds by one line: it stops where the line's edit stops, and otherwise carries on with the line replaced |
| TopOld.PlainLineStep | top/old.go:270-276 | a line with no ';' has no comment part, and its edit is the edit of the whole line |
| TopOld.EditedIdentity | top/old.go:257-258 | when every function is the do-nothing function and no line holds ';', the edit succeeds and changes no line |
| TopOld.EditedKeeps | top/old.go:266-269 | lines before the start and comment lines beginning with ';' are never changed |
| TopOld.CommentStep | top/old.go:266-269 | a line beginning with ';' is put back unchanged, and the section and the closure states stay |
| TopOld.EditedStops | top/old.go:279-314 | the edit succeeds exactly when the cursor ends at 0; after an error the cursor is just past the failing line |
| TopOld.EditedStopsKeep | top/old.go:279-307 | after an error, the failing line and every line after it are unchanged |
| TopOld.SwitchWith | top/old.go:533-541 | the selection holds the standard headers; atoms, bonds and constraints, angles, dihedrals and exclusions renumber 1, 2, 3, 4 and all fields; vsitesn gets the sites function; the rest do nothing |
| TopOld.SwitchAtomNumbersFunctions | top/old.go:468-544 | the selection is `SwitchWith` of the plan `SwitchPlan` builds from `tosub` and `replacement` |
| TopOld.ShiftAtomNumbersFunctions | top/old.go:549-551 | the selection is `SwitchWith` of the shift plan, which adds `toadd` to every index from `after` on |
| TopOld.DeleteAtomsFunction | top/old.go:386-404 | atoms and vsitesn get the deleting function, and every other standard header does nothing |
| TopOld.SetEvery | top/old.go:329-334 | every header gets the given function and no header is added |
| TopOld.DelDuplicatedFunctions | top/old.go:341-356 | every header gets one shared duplicate-dropping function, whose state starts at the sentinel line |
| TopOld.DelRepeatedFunctions | top/old.go:320-335 | every header gets one shared repeat-dropping function, whose state starts with no seen lines |
| Files.SymbolFromName | files.go:92-132 | an empty name panics; a one-byte name is its own symbol; a 4-byte name or one starting with 'H' is hydrogen; it fails, with the "Couldn't guess" message, exactly when the name starts with none of H, C, N, O, P, S or "ZN" and has neither 1 nor 4 bytes; every other symbol it returns has a mass in the element table; apart from 1- and 4-byte names and hydrogens, the symbol upper-cased is a prefix of the name, and it has two letters exactly for CU..., ZN..., CO, CL, NA and SE |
| Files.CorrectBfactors | files.go:323-335 | true exactly when b-factors are given, there is one list per coordinate set, and each list has one value per row of its set |
| Files.WritePdbLine | files.go:339-364 | the line fails exactly when the atom name has more than 4 bytes, never panics, and always passes on the atom's chain as the new previous chain |
| Files.PdbLineStart | files.go:342-362 | a written line starts with "TER\n" exactly when the chain changes, and then continues with the record name ATOM or HETATM |
| Files.RecordColumns | files.go:350-360 | when every value fits its width, the record is 81 characters long, with each value in its fixed PDB columns (counting from 1: name in 14-17, coordinates in 31-54, symbol in 77-78) and a final newline |
| Files.Record | files.go:350-360 | a record begins with its record name, `ATOM` or `HETATM`, so never with `T` (it cannot be taken for `TER`) |
| Files.Entries | files.go:398-411 | the text for `n` atoms keeps the text for every shorter run as its beginning and ends with the `n`-th record |
| Files.NameColumns | files.go:353-354 | a name of at most 4 bytes fills the 4 name columns, left-aligned |
| Files.Zeros | files.go:390-392 | missing b-factors become one zero per atom |
| Files.Records | files.go:402-406 | there is one record per atom |
| Files.RecordsAt | files.go:405-406 | the record of atom `i` uses coordinate row `i` and b-factor `i` |
| Files.Written | files.go:402-411 | the loop over the atoms never panics |
| Files.WrittenStops | files.go:407-409 | once a line fails, the result stays that error however many more atoms there are |
| Files.FirstLong | files.go:355-356 | the position of the first atom whose name is longer than 4 bytes, or the number of atoms when there is none |
| Files.WrittenEntries | files.go:398-411 | with no over-long name the loop yields the joined lines, a "TER" before each chain change, and the last atom's chain; otherwise it yields "Could not print PDB line" with the index of the first over-long name |
| Files.PdbStringWrite | files.go:389-414 | the method computes `PdbStringOf` |
| Files.PdbStringOf | files.go:389-414 | counts of coordinates, atoms and b-factors that all are 0 panic (on `mol.Atom(0)`), and only they do; the text written has at least one atom and ends with `END\n` |
| Files.PdbText | files.go:398-413 | writing the records of a non-empty molecule never panics, and the text written ends with `END\n` |
| Files.WriteRecords | files.go:398-413 | the loop computes `PdbText` |
| Files.WriteLine | files.go:339-364 | the method returns the line, the new previous chain and whether it failed, as `WritePdbLine` gives them |
| Files.PdbStringRejects | files.go:389-398 | a count mismatch between coordinates, atoms and b-factors gives the "same number of atoms" error; with matching counts, an empty molecule panics at `mol.Atom(0)`, and nothing else panics |
| Files.PdbStringWritten | files.go:389-414 | with matching counts and at least one atom, the text is the atom records, with "TER" lines on chain changes, then "END\n"; or it is the error for the first over-long name |
| Files.PdbStringText | files.go:398-413 | with matching counts, the output is `PdbText` of the records |
| Files.PdbTextWritten | files.go:398-413 | the written text is the entries followed by "END\n", or the error for the first over-long name |
| Files.PdbStringNil | files.go:390-392 | passing no b-factors is the same as passing one zero per atom |
| Files.Title | files.go:554 | `strings.Title` upper-cases an ASCII letter at the start of the string and after each separator, and keeps every other character |
| Files.TitleAfter | files.go:554 | the letter-by-letter form of `Title`, from a given "at a word start" flag |
| Files.SnapHeader | files.go:520-536 | a header that reads correctly consumes part of the input (its outcomes are stated by `Files.SnapHeaderOutcomes`) |
| Files.SnapHeaderOutcomes | files.go:520-536 | the header is read exactly when a first line exists, its trimmed text is an `int`, that value is not negative and a second line exists; the count is that value and reading resumes after the second line. Otherwise: no first line gives `Empty XYZ File: EOF`, a count that is not an integer gives `Wrong header for an XYZ file ` plus `strconv.Atoi`'s error, a negative count is `make`'s panic, and no second line gives `Ill formatted XYZ file: EOF` |
| Files.ReadAtomLine | files.go:539-551 | the loop breaks exactly when the text ends before the last atom, or when the line has fewer than 4 fields. A break at the end of the text gives `EOF`; the other break gives `Line number <i> ill formed`. Otherwise it hands over the line's fields (at least 4) and the text after the line |
| Files.ReadAtomLineFields | files.go:547-551 | the atom-line reader gives at least 4 fields whenever it succeeds |
| Files.AtomFields | files.go:538-562 | at most one line of fields per atom is read, and each has at least 4 fields |
| Files.LinesRead | files.go:538-562 | at most `n` lines of fields are read, and each has at least 4 fields |
| Files.LineErrs | files.go:559-561 | a line has three parse results, all empty exactly when the three coordinates parse |
| Files.LineErrsFirst | files.go:565-570 | the error reported for a line is for the first of its three coordinates that does not parse |
| Files.ZeroRows | files.go:532 | the coordinate buffer starts with one row per atom |
| Files.AtomsAsWritten | files.go:537-562 | as written, the error slots are overwritten by each line, and the coordinate rows keep their number |
| Files.AsWrittenErrs | files.go:538-562 | as written, a short read is always reported, but when every line is read the errors checked are only those of the LAST line: a bad coordinate on an earlier line is lost |
| Files.AtomsRead | files.go:538-562 | the corrected loop never panics, keeps the rows already read, and keeps the number of rows |
| Files.AtomsOf | files.go:552-558 | each atom read has the title-cased first field as its symbol and name, the table's mass for that symbol, and residue "UNK" |
| Files.ReadErrs | files.go:538-562 | the corrected loop succeeds exactly when every atom line is read and all their coordinates parse; then each row holds its line's coordinates, and the atoms are read only when asked |
| Files.LoopOutcomes | files.go:538-570 | from an empty buffer, the as-written loop succeeds exactly when every line is read and the last one parses, while the corrected loop succeeds exactly when every line is read and all of them parse |
| Files.SnapOutcomes | files.go:519-573 | after a good header, the as-written reader accepts a snapshot exactly when all lines are there and the last one parses; the corrected reader needs every line to parse |
| Files.SnapHeaderFails | files.go:520-536 | when the header is bad, both readers give the header's error (or its panic) |
| Files.SnapValues | files.go:519-573 | a snapshot read correctly has one coordinate row per atom holding that atom line's values, and atoms exactly when topology reading is on |
| Files.SnapOf | files.go:519-573 | the corrected reader panics only where the header read does; a snapshot it reads has one coordinate row per atom of the header, and atoms exactly when the topology is asked for |
| Files.SnapAsWritten | files.go:519-573 | as written, the reader agrees with `SnapOf` when the header does not read, and a snapshot it reads has one coordinate row per atom and atoms exactly when asked for |
| Files.XyzReadSnap | files.go:519-573 | the method computes the corrected `SnapOf` |
| Files.AtomLoop | files.go:537-562 | the loop computes `AtomsRead` from an empty buffer |
| Text.FieldsFunc | traj/stf/stf.go:190 | `strings.Fields` returns only non-empty words that contain no separator |
| Text.FieldsOfJoin | top/old.go:509 | splitting words joined by one separator, plus separator-only trailing text, gives back the words |
| Text.Split | traj/ctf/stf.go:254 | `strings.Split` returns at least one piece, and joining the pieces with the separator gives back the input |
| Text.SplitOfJoin | traj/ctf/stf.go:254-261 | splitting pieces joined by a separator they do not contain gives back the pieces |
| Text.FindFirst | traj/stf/stf.go:189 | the substring search behind `strings.Contains` misses the separator exactly when it occurs at no index, and the index it finds is the first occurrence |
| Text.ReadLine | traj/stf/stf.go:183 | `ReadString('\n')` returns the text up to and including the first newline, and the rest; at end of input it returns everything left and flags end of input |
| Text.ReadLineOf | traj/stf/stf.go:248 | reading a line that was written with a trailing newline gives that line back, and the rest of the input after it |
| Numbers.ParseInt | traj/stf/stf.go:195 | an optional sign followed by decimal digits parses, and nothing else does; plain digits give their decimal value, `-` and digits its negation, `+` and digits the value itself |
| Numbers.Atoi | top/gromacsheaders.go:56 | `strconv.Atoi` parses exactly the integer texts whose value fits in 64 bits, and gives the same value as `ParseInt` |
| Numbers.ParseIntText | traj/ctf/stf.go:245 | parsing the decimal text of an integer gives back that integer |
| Numbers.ParseAll | top/gromacsheaders.go:53-63 | `parseints` succeeds exactly when every word parses, and then gives one value per word, in order |
| Numbers.FirstUnparsed | top/gromacsheaders.go:55-59 | when `parseints` fails, the word whose error it returns is the first one that does not parse: every word before it parses |
| Numbers.RoundHalfEven | traj/stf/python/stf.py:141 | Python's `round` gives an integer within one half of its argument, and the even one at a tie |
| Numbers.FixedValueClose | files.go:350 | a value printed with a fixed number of decimals is within half a unit of the last decimal of the original |
| Numbers.ParseFixedValue | traj/stf/stf.go:239 | a number parser that reads decimal texts reads a value printed with fixed decimals as the rounded value |

## Left out

- Compression and files: the zstd, deflate, gzip and lzw streams, opening, creating and closing files, and their I/O errors are not modelled. Each stream is the text it carries.
- `PyStf`: the accessors `next_list`, `get_header`, `get_natoms` and `get_frames_read` are not modelled. They only return fields the model exposes directly.
- `GoStf` and `GoCtf`: `Len`, `Readable`, `WNextDense` (an adapter from a gonum matrix) and `NextConc` (concurrency) are not modelled. Neither are the `Error`/`lastFrameError` helper methods: errors are their message strings, and last-frame termination is the `LastFrame` status.
- GoStf.Writer.constructor: Go's map iteration order is unspecified, so the order of the `k=v` lines is the parameter `order`. Any order that visits every key once is allowed.
- `TopOld`: `AddTermFunctions`, `EditTermFunction` and `MergeTopologies` are not modelled. They are not among the function builders this model covers.
- TopOld.FuncApplier: `NewTopHeader`'s regular expressions (`Is` and `Which`, in `top/gromacsheaders.go`) are the parameters `isHeader` and `which`. The selection must hold the "default" and "nonskiplines" headers; without them Go's `GetOrDefault` panics.
- TopOld.TopInMem.Clean: the header test is the same `isHeader` parameter.
- TopOld.TopInMem.FromText: `TopInMemFromFile` is modelled on the file's text. Errors from opening or reading the file are not modelled.
- TopOld.TopInMem.WriteToFile: returns the text written. Errors from creating or writing the file are not modelled.
- TopOld.TermSelect.Get: the Go code panics on an unknown header. That panic is a precondition here. TopOld.TermSelect.GetOrDefault and TopOld.TermSelect.Set are treated the same way.
- TopOld.TermSelect.SetErr: the error text is the fixed "term not supported". Go formats the recovered panic, which prints the function value.
- TopOld.TopInMem.ReplaceString: requires a line to have been read. Go panics on index -1 otherwise.
- TopOld.SwitchAtomNumbersFunctions: requires that `tosub` and `replacement` have equal length, or that `tosub` is empty and `replacement` is not. In Go, the first mismatch panics when the function is built, and the second panics on the first call.
- TopOld.DelDuplicatedFunctions: also returns the `Cell` holding the closure's state, so that callers can name it. TopOld.DelRepeatedFunctions does the same.
- `Histo`: `ReHisto` is not modelled; it calls gonum's `stat.Histogram`. Also not modelled: `MatrixCombine`, `Matrix.Dims`, `Fill`, `NewHisto`, `View`, `AddData`, `NormalizeAll`, `UnNormalizeAll`, `FromAll`, `ToAll`, the JSON and `String` methods, and `Data.ID`, `Normalized`, `View` and `Sum`. These are accessors and per-cell loops over the modelled `Data` operations.
- Histo.Data.constructor: the `rawdata` argument is not modelled, because it goes through `ReHisto`. Empty dividers are excluded by a precondition; Go panics on them when it allocates the bins.
- `Rama`: `RamaCalc` is not modelled; it computes dihedral angles in floating point.
- `Handy`: not modelled, as floating-point geometry: `OnesMass`, `Super`, `RotateAbout`, `EulerRotateAbout`, `MakeWater`, `ScaleBonds`, `ScaleBond` and `CutBackCoords`. Also not modelled: `Corrupted`, which only compares the atom counts of a trajectory and a reference, both outside this model.
- Handy.MergeAtomers: `NewTopology` is not part of this model. The merged molecule is its atoms, charge and multiplicity, and the error `NewTopology` may return is not modelled.
- `Ddc`: not modelled: `lenunits`, `New`, `Readable`, `initRead`, `nextbin`, `Next`, `Len`, and the `DCDObj` reader functions. They read binary frames, and the frame reader refers to `DCDObj` fields and does not compile. `initRead` also calls `bitFormat` before it assigns `D.h`, which would dereference a nil header. `isInString` is modelled once, in `Handy`.
- Ddc: an error is its message string. Go's `Error` struct (ddc/ddc.go:570-579) prints as `dcd file <filename> error: <message>`, and it also carries the file name, the decorations added by `Decorate` and the `critical` flag. None of these is modelled.
- Ddc.DdcObj.BitFormat: the byte order `D.endian` is the flag `littleEndian`, because the only value the code assigns is little-endian.
- Ddc.ZFill: as written, the padded length is `target + 1`. `Ddc.ZFillTo` is the documented length. Nothing in `ddc/ddc.go` calls it.
- Files: `PDBWrite`, `MultiPDBWrite`, `XYZRead`, `XYZWrite` and the PDB readers are not modelled. They are file I/O, or parsing outside the named helpers.
- Files.XyzReadSnap: three parts of `xyzReadSnap` are not modelled. The `fmt.Println("line", line, k)` on its error path (files.go:564) is console output. Its result comes straight from `NewVecs(coords)` (files.go:569-570), but the model returns the coordinate rows themselves, so the matrix type and whatever `NewVecs` returns or raises for zero atoms are not modelled. A count whose `natoms*3` overflows Go's `int` or exceeds the allocation limit makes `make` panic (files.go:529-533); the model accepts every count of 0 or more, and such a file then ends with `EOF` while the atom lines are read.
- Files.Title: only ASCII letters are upper-cased, and only ASCII characters separate words. `strings.Title` also handles non-ASCII letters and spaces.
- Files.LineErrs: a coordinate the parser rejects always gets `ParseFloat`'s "invalid syntax" message. The "value out of range" message is not distinguished.
- Files.PdbStringWrite: an `Atomer` is its list of atoms and a coordinate matrix is its list of rows. A nil matrix is not modelled.
- GoStf.SetCoords: `ParseFloat`'s error is always its "invalid syntax" message; "value out of range" is not distinguished. The same holds for GoStf.Reader.SetRow, GoCtf.Reader.SetRow and Ddc.TimeStage.
- Numbers.Quote: escapes `"`, `\`, newline, tab and carriage return. Other control characters and non-printable runes, which `strconv.Quote` writes as `\x`, `\u` or `\U` escapes, are not escaped here.
- Numbers.ParseInt: only ASCII digits and an optional sign are accepted. `strconv` accepts no more than that, but Python's `int` also accepts surrounding blanks, `_` separators and non-ASCII digits. Numbers.IsDigitText is ASCII-only in the same way, while Python's `isdigit` is not.
- GoStf.Reader.Next: requires a destination matrix of at least `3 * natoms` values when the frame is stored. Go's `c.Set` panics on a smaller matrix. GoCtf.Reader.Next has the same precondition.
- GoStf.Reader.Next: the `fmt.Println` on a failed row read (traj/stf/stf.go:225) is console output and is not modelled.
- PyStf.PyNextLine: splits lines only at `\n`. Python's universal newlines, which also split at `\r` and `\r\n`, are not modelled.
- PyStf.WriterDict: returns the dictionary that is written. The writer's in-place update `d["prec"] = ...` of the caller's own dictionary is not modelled, because values are not shared here.
- Numbers.RoundHalfEven: Python's `round` and Go's `%.3f` round the binary float64 value. Here the rounding is applied to an exact real, so binary representation error is not modelled.

## Findings

| source | as written | input that shows it | evidently intended | confidence | as-written member | corrected member |
|---|---|---|---|---|---|---|
| traj/stf/python/stf.py:51-65 | `rtraj.__init__` returns inside the header loop as soon as it finds `**`. The `dict` and `prec` parsing after the loop (which also misspells `headerdic`) never runs, so the reader always divides by the initial `prec` of 100. | a file written with no dictionary (precision 1, so coordinate 1.0 is written as 10), followed by one frame of the atom (1.0, 0.0, 0.0): it reads back as 0.1 | the reader takes the header's `prec` and divides by `10^prec`, so that reading gives back the written value | high (not executed) | PyStf.PrecIgnoredExample | PyStf.TrajectoryRoundTrip |
| traj/stf/stf.go:201-206 | `New` stores every `k=v` header line into the map `m`, which is declared at line 152 but never made. Writing to a nil map panics, so any file with a header entry cannot be opened. | the text `a=b\n** 1\n` | `m` is made before the loop, and the header reads back as the map `{a: b}` with 1 atom | high (not executed) | GoStf.EntryPanicExample | GoStf.HeaderRoundTrip |
| traj/stf/stf.go:229-232 | `Next` builds its error for a row without 3 fields (and, at lines 248-254, for a bad terminator) with `err.Error()`, while `err` is nil there, so it panics instead of returning an error. The same happens at lines 190-192 for a sentinel line with fewer than 2 fields. | a frame whose first row is `1 2` | `Next` returns the "Wrong number of coordinates or atoms in frame" error | high (not executed) | GoStf.ShortRowAsWritten | GoStf.NextFrame |
| histo/histo.go:378-381 | `CopyDividers` and `Copy` return `floats.ScaleTo(d, 0, src)`, which is `0 * src`: the copy is all zeros. `Add` and `Sub` then compare the dividers against that zero copy. | `h.Add(h, x)` with two one-bin histograms whose dividers are both `[0, 1]` and whose bins hold 2 and 3: the receiver's dividers become `[0, 0]`, and the divider check panics | the copy equals `src`, and the result is one bin holding 5 with dividers `[0, 1]` | high (not executed) | Histo.AccumulateAsWritten | Histo.CombineMatching |
| histo/histo.go:54-60 | `Matrix.CopyDividers` returns `floats.ScaleTo(d, 0, M.dividers)` as well, so a matrix's dividers are copied as zeros. | a matrix whose dividers are `[0, 1]`: the copy is `[0, 0]` | the copy equals the dividers | high (not executed) | Histo.CopyAsWrittenZeros | Histo.Matrix.CopyDividers |
| top/old.go:549-551 | `ShiftAtomNumbersFunctions(after, toadd)` passes `tosub = [-after]`. For `after == 0` that is `[0]`, which is not negative, so the plan renumbers only atom index 0 and leaves every real (positive) index alone. Any negative `after` gives a positive `tosub = [-after]` too, so the plan replaces the single index `-after` by `toadd` and shifts nothing. | `ShiftAtomNumbersFunctions(0, 5)` on an atoms line for atom 5 | every index at least `after` moves by `toadd` | medium (not executed) | TopOld.ShiftZeroAsWritten | TopOld.ShiftPlan |
| top/old.go:494-496 | the `adder(atoms)` closure overwrites its captured `atoms` with a line's field count: for the first line when `atoms <= 0`, or for the first line with fewer than `atoms` fields. Every later line then renumbers only that many fields. | an `exclusions` section with the lines `1 2` and then `3 4 5`, adding 10: the second line becomes ` 13  14 5` | each line's atom fields are counted afresh: ` 13  14  15` | high (not executed) | TopOld.StickyCountAsWritten | TopOld.RenumberLine |
| files.go:537-570 | `xyzReadSnap` keeps one error slot per coordinate and overwrites the slots on every line. Only the last line's parse errors are checked after the loop, so a bad coordinate on an earlier line is silently read as 0. | the snapshot `2\n\nC x 0 0\nC 0 0 0\n` | the read fails at the first coordinate that does not parse | high (not executed) | Files.SnapOutcomes | Files.SnapValues |
| handy.go:326-330 | `CutBackRef` caps each list's residues in its own chain, but then selects the kept atoms of every list from all the chains given. | chains `["A", "B"]`, lists `[[1], [3]]`, and atoms for residue 1 of chain A and residues 3 and 1 of chain B: residue 1 of chain B is kept | list `k` selects only from chain `k` | medium (not executed) | Handy.CutBackRefOtherChain | Handy.CutBackRef |
| ddc/ddc.go:204-209 | `parseObj` splits the body on `;` and indexes `kv[1]` for every piece. The empty piece after a trailing `;` has no `=`, so this panics. | the object `X{a=b;}` | empty pieces are skipped, and the object reads as `{a: b}` | medium (not executed) | Ddc.ObjectTrailingPanics | Ddc.ObjectTrailingRead |

## Notes on the source

- `traj/ctf/stf.go`: the reader's `readable` flag is never set to true, so `CsfR.Close` never closes the stream. The model keeps that behaviour.
- `traj/ctf/stf.go`: end of input at any atom line of a frame ends the trajectory normally (the `LastFrame` status), as the source's comments describe.
- `top/old.go`: the comment of `ShiftAtomNumbersFunctions` says "greater than `after`". The atoms-type closures move indices at least `after`, and the `vsitesn` closure moves indices greater than `after`. The model follows the code.
- `histo/histo.go`: `Matrix.Check` writes the row message first and then overwrites it with the column message, so the column message wins when both indices are too large.
- `ddc/ddc.go`: in `DDCObj.parseObj`, the "Object not delimited by {}" guard can never fire. A text with no brace has only one piece, and indexing piece 1 panics first. `Ddc.ObjectGuardDead` states this, and `Ddc.ObjectOf` returns the error instead.
