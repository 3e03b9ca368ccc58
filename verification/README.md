# LogDoc slog handler, modelled in Dafny

This project models the log/slog handler of the LogDoc Go appender
(`slog/slog_handler.go`). The handler does three things:

- it gates records by level;
- it keeps track of the attributes and group names it was derived with;
- for each record it builds one LogDoc frame and writes it to the collector's connection.

A frame has three parts:

- the two header bytes `0x06 0x03`;
- a sequence of `key=value\n` pairs: `msg`, then every string-valued attribute of the record in
  order, then the service pairs `app`, `tsrc`, `lvl`, `ip`, `pid` and `src`;
- a closing `\n`.

The modules follow the handler's structure:

- `Outcomes`: `Option` and `Result`. A Go panic becomes a `Failure` carrying a `Panic`.
- `ByteStrings`: Go strings and byte slices are both `seq<byte>`.
- `Decimal`: `%d`, `strconv.Itoa` and `%+d`, each with a decimal reader to check it against.
- `Timestamp`: the `060201150405.000` time layout used for `tsrc`.
- `Slog`: the parts of log/slog the handler reads: `Level.String`, attributes and records.
- `Wire`: the `key=value\n` line format, plus a line reader and a pair reader that are independent
  of the writer.
- `Handler`: the handler's options, `NewLogdocHandler`, `Enabled`, `WithAttrs` and `WithGroup`.
- `Frame`: `sendLogDocEvent`, `sendLogdoc` and `processCustomFields`, and the frame they produce.

`sendLogdoc` builds the frame step by step in a byte slice it passes by pointer. The model keeps
that shape:

- the slice is a `Buffer` object, and `WritePair` appends to it in place;
- `SendLogdoc` is a method, proved to build exactly the frame `LogdocFrame` specifies;
- `ProcessCustomFields` is a loop over the attributes, with its invariant.

The frame's properties are then proved about `FrameBytes`, the bytes `LogdocFrame` gives for a
record once its source location is known.

Some facts about the code as written shape the model:

- **The time layout puts the day before the month.** The layout `060201150405.000` reads as
  two-digit year, day, month, hour, minute and second, then milliseconds. The model follows
  that order (`Timestamp.TsrcFields`).
- **A record without a known program counter panics.** For a record, `src` comes from
  `runtime.FuncForPC(entry.PC)` followed by `FileLine` (slog/slog_handler.go:152-153).
  `FuncForPC` gives nil for a program counter that lies in no function, which includes 0, slog's
  "no program counter". `FileLine` then dereferences nil. The model keeps this panic (`NilFunc`),
  so a record yields a frame exactly when its program counter resolves. This is listed under
  "## Findings", together with a guarded variant.
- **`tsrc` ends with an extra newline, under the `WritePair` assumption below.** The `tsrc` value
  is built with its own trailing `"\n"` (slog/slog_handler.go:161). If `WritePair` adds the
  line's terminator, as assumed below, then every frame has an empty line right after `tsrc`.
  `Frame.FrameLines` and `Frame.FirstEmptyLineAfterTsrc` state the line structure that results.
  Under the same assumption the empty line also closes the frame, so a collector that ends a frame
  at the first empty line stops before `lvl`, `ip`, `pid` and `src`. Such a collector is not part
  of this model.
- **The error-only path never yields a frame.** With no record but a non-nil error, `sendLogdoc`
  takes the error text as `msg` (slog/slog_handler.go:142) and "TODO" as `src` (line 157). It then
  panics in `processCustomFields` on the nil record (line 189). The model makes both choices and
  returns that panic, so no frame without a record is produced. The only caller (line 132) passes
  a nil error, so this path is not reached from the handler.
- **The "warning" branch is dead.** `sendLogDocEvent` maps the level name "warning" to "warn", but
  slog never names a level "warning" (its names are `DEBUG`, `INFO`, `WARN` and `ERROR`, with an
  optional signed offset). `Frame.SlogLevelsPassThrough` proves this, so `lvl` is always slog's own
  name for the level.

`common.WritePair` is not part of this model. It is taken to append `key=value\n`, which is
exactly what `processCustomFields` writes inline (slog/slog_handler.go:192).

## Model

| member | source | states |
|---|---|---|
| Handler.NewLogdocHandler | slog/slog_handler.go:55-81 | panics exactly when no connection is given; otherwise the handler is ready with no attributes and no groups, the level defaults to Debug, the converter to the default converter, the marshaler to JSON and the context extractors to an empty list, and the connection, app name, `AddSource` and `ReplaceAttr` are kept |
| Handler.DefaultLevelIsDebug | slog/slog_handler.go:56-58 | a handler built without a level lets a record through if and only if its level is at least Debug |
| Handler.Enabled | slog/slog_handler.go:91-93 | a record passes when its level is at least the configured one; its properties are stated by the two lemmas below |
| Handler.EnabledThreshold | slog/slog_handler.go:91-93 | the gate is monotone in the level, and the configured level is the lowest one let through |
| Handler.WithAttrs | slog/slog_handler.go:108-114 | the new handler's attributes are the group-aware merge of the old attributes with the new ones; the options and groups are unchanged |
| Handler.WithGroup | slog/slog_handler.go:116-122 | the new handler has the group name appended; its attributes and options are unchanged |
| Handler.WithGroupsAccumulate | slog/slog_handler.go:116-122 | a chain of WithGroup calls appends exactly its names, in order, and changes nothing else |
| Handler.DerivationsKeepGate | slog/slog_handler.go:108-122 | deriving a handler keeps it ready and lets through the same levels |
| Slog.LevelString | slog/slog_handler.go:126-129 | a level's name is non-empty, starts with an upper-case letter and has no newline |
| Slog.LevelStringRoundTrip | slog/slog_handler.go:126-129 | reading a level name back gives the level, so distinct levels never print the same |
| Slog.NamedLevels | slog/slog_handler.go:126-129 | the four named levels print as DEBUG, INFO, WARN and ERROR with no offset |
| Frame.NormaliseLevel | slog/slog_handler.go:124-130 | "warning" becomes "warn", every other name is kept, and the result is never "warning" |
| Frame.SlogLevelsPassThrough | slog/slog_handler.go:124-130 | no slog level name is changed by the normalisation |
| Frame.SendLogDocEvent | slog/slog_handler.go:124-133 | a nil record panics when its level is read; a record yields a frame exactly when its program counter lies in a function, otherwise the FileLine panic; the frame is the one for slog's own level name |
| Decimal.Itoa | slog/slog_handler.go:148 | `%d` and `strconv.Itoa` of any integer: non-empty, no newline, a minus sign or a digit first |
| Decimal.NatDigitsRoundTrip | slog/slog_handler.go:148 | the decimal digits of a natural number read back as that number |
| Decimal.ItoaRoundTrip | slog/slog_handler.go:154 | the `%d`, `strconv.Itoa` and `%+d` renderings of any integer read back as that integer |
| Timestamp.FormatTsrc | slog/slog_handler.go:160-161 | the timestamp has 16 bytes: digits, with a dot at position 12 |
| Timestamp.TsrcFields | slog/slog_handler.go:160-161 | the timestamp reads back as year modulo 100, day, month, hour, minute, second and millisecond, in that order |
| Timestamp.TsrcNoNewline | slog/slog_handler.go:160-161 | the formatted time itself holds no newline |
| Frame.Buffer.WritePair | slog/slog_handler.go:166 | the buffer grows by exactly one `key=value\n` line |
| Wire.Serialize | slog/slog_handler.go:166-175 | written pairs end with a newline |
| Wire.SerializeAppend | slog/slog_handler.go:166-175 | writing two runs of pairs one after the other is writing their concatenation |
| Wire.LinesOfSerialize | slog/slog_handler.go:166-175 | one-line pairs occupy exactly one line each, in order |
| Wire.SerializeRoundTrip | slog/slog_handler.go:166-175 | an independent line and pair reader gets back exactly the pairs written, in order, when no key holds '=' and nothing holds a newline |
| Wire.SerializeDoubled | slog/slog_handler.go:161-175 | a pair whose value ends in a newline is followed by an empty line |
| Frame.ProcessCustomFields | slog/slog_handler.go:187-198 | a nil record panics; otherwise one line is appended per string-valued attribute, in order, and the other attributes are skipped |
| Frame.AttrPairs | slog/slog_handler.go:190-192 | an attribute gives one pair, with its own key, exactly when its value is a Go string, and none otherwise |
| Frame.StringPairs | slog/slog_handler.go:189-195 | the pairs written for the attributes: never more than the attributes, and one for each when all are strings |
| Frame.StringPairsAppend | slog/slog_handler.go:189-195 | the attributes' lines keep the record's order |
| Frame.StringPairsExact | slog/slog_handler.go:189-195 | a pair is written if and only if some attribute has that key and that string value |
| Frame.StringPairsOneLine | slog/slog_handler.go:189-195 | each written attribute occupies one line when its key and text hold no newline |
| Frame.FuncForPC | slog/slog_handler.go:152 | a counter resolves exactly when it is non-zero and lies in a function of the program, and then to that function |
| Frame.SourceLocation | slog/slog_handler.go:152-154 | `src` is the function's name, then a colon, then text that reads back as the line number; it holds a newline only if the name does |
| Frame.FrameBytes | slog/slog_handler.go:136-178 | a frame starts with the header bytes 6 and 3 and ends with two newlines |
| Frame.LogdocFrame | slog/slog_handler.go:135-178 | a frame exists exactly when there is a record whose program counter resolves; otherwise the panic is Error() on a nil error, FileLine on a nil function, or the nil record |
| Frame.NoProgramCounterPanics | slog/slog_handler.go:150-153 | a record with program counter 0 ends in the FileLine panic, never in a frame |
| Frame.GuardedFrame | slog/slog_handler.go:150-158 | with FuncForPC's nil result checked, every record yields a frame |
| Frame.GuardedFrameAgrees | slog/slog_handler.go:150-158 | the guarded frame equals the code's frame whenever the code produces one, and writes `src=TODO` where the code panics |
| Frame.SendLogdoc | slog/slog_handler.go:135-185 | builds, write by write, exactly the LogdocFrame bytes, or stops at the same panic, including the FileLine panic on an unresolved program counter |
| Frame.FrameBody | slog/slog_handler.go:165-178 | after the header the frame holds the pairs before `tsrc`, the `tsrc` line with two newlines, the remaining service pairs and the closing newline |
| Frame.FrameLines | slog/slog_handler.go:161-178 | a line reader sees, behind the header: one line per pair from `msg` to `tsrc`, an empty line, then `lvl`, `ip`, `pid` and `src`, and a closing empty line, when no text written (message, level, app name, remote address, `src`, attribute keys and string values) holds a newline |
| Frame.FirstEmptyLineAfterTsrc | slog/slog_handler.go:161-178 | the first empty line of a frame is the one right after `tsrc`, when no text written holds a newline |
| Frame.FrameIgnoresRecordTime | slog/slog_handler.go:160 | the frame does not depend on the record's own time, because `tsrc` is read from the clock |

## Left out

- The write to the connection and its error logging (slog/slog_handler.go:180-183). `SendLogdoc`
  returns the frame it would write.
- The remote address, the process id and the clock are inputs: `Conn.remoteAddr` and `Env`. The
  program's functions are an input map from program counter to name and line. `FuncForPC`
  resolves a record's counter against that map, and a zero counter never resolves. The map does
  not model how a counter inside a function maps to that function's entry.
- Time zones. The clock reading is taken as already in local time.
- The goroutines that `Handle` and `sendLogDocEvent` start. The model is sequential.
- `Handle` (slog/slog_handler.go:97-106). It runs the converter, slog-common's
  `ContextExtractor` and a goroutine. The converter is declared in another file of the same
  package, and `ContextExtractor` is in another package; neither is part of this model. So
  `SendLogDocEvent` takes the converter's output record as its input. Whether that record keeps
  the original program counter depends on the converter.
- `GetLogger` and `SetLogger`. They only read and replace a package-level logger.
- Handler.WithAttrs: slog-common's `AppendAttrsToGroup` is not part of this model, so the merge is
  a parameter and only how it is used is stated.
- `slogcommon.AttrToValue` is not part of this model. An attribute is taken to keep its key, and
  its value is a Go string exactly when it is a `StringValue`.
- The marshaler and `ReplaceAttr` are kept in the options but never called. `AddSource` is kept
  but has no effect here.
- `slog.Leveler` and `LevelVar`. The level is a fixed integer in the options, so a level changed
  after the handler is built is not modelled.
- Go's slice aliasing. The model does not capture `append(h.groups, name)` sharing a backing array
  with the parent handler.
- Frame.Buffer.WritePair: `common.WritePair` is not part of this model. It is taken to append
  `key=value\n`, the same bytes `processCustomFields` writes.

## Findings

| source | as written | input that shows it | evidently intended | confidence | as-written member | corrected member |
|---|---|---|---|---|---|---|
| slog/slog_handler.go:152-153 | `FileLine` is called on the result of `runtime.FuncForPC(entry.PC)` without checking it for nil | a record with program counter 0 (`slog.NewRecord(..., 0)`), which FuncForPC resolves to nil | a record always yields a frame, with a placeholder `src` when the counter resolves to no function | medium, not executed; it depends on the converter passing the program counter through | Frame.NoProgramCounterPanics | Frame.GuardedFrameAgrees |

`Frame.SendLogdoc` and `Frame.LogdocFrame` model the code as written. `Frame.GuardedFrame` is the
same frame builder with the nil check added. It writes `TODO`, the placeholder the code already
uses when there is no record.
