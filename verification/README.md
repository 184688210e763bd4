# pupil-audio core, modelled in Dafny

This project models the sequential core of `pupil_audio`. The package captures audio from a PortAudio input device through PyAudio and writes it to a file through PyAV. The model covers these parts:

- **Sample layout.** `PyAudioCodec` reads a PyAudio byte buffer as a (frames, channels) numpy array and flattens it back. `PyAVCodec` turns such an array into a planar PyAV frame. The older blocking package holds a copy of `PyAudioCodec`.
- **The transcoder.** `PyAudio2PyAVTranscoder` holds the dtype and format tables, checks the sample count, de-interleaves the buffer into one plane per channel and stamps each frame's pts from a per-instance counter. The example `PyAudio2PyAV` is a variant of it.
- **The pipeline.** `PyAudioDeviceSource` has a callback that checks the buffer length and queues the buffer, dropping it when the queue is full. `PyAVFileSink` runs a record loop that drains the queue, encodes, muxes, flushes once and closes. `PyAudio2PyAVCapture` wires the two to one shared queue and starts and stops them in a fixed order. `PyAVFileOutputStream` opens its container lazily. `PyAudioManager` hands out PyAudio sessions.
- **The device directory.** Host-API enumeration, the per-OS name filters, the name-keyed device maps, the input/output views and the named lookup, for both the current `DeviceInfo` API and the older dictionary API.
- **`key_property`.** Dict-backed record accessors with a default, a type check and a read-only mode.
- **Path helpers.** The pathlib rules for name, stem and suffix. `append_to_file_name` and `get_output_file_path` from the examples. The debug data store of the non-blocking capture example, with its side-file paths.

Samples are `seq<int>`. A buffer's byte length is its sample count times the sample width. Each Python exception raised by the modelled code becomes an `Err` value of the `Wrappers` module. The foreign libraries are parameters or abstract values: the PyAV encoder is a function from the frames it has already seen and the next input to packets, and the container is an append-only log. Threads are run sequentially: the sink's record thread is the loop steps it takes while running, then the drain that follows `stop`. When `transcode` raises, the thread dies on that buffer: `stop` reports the error and the later buffers stay queued. Each source component has one module, in a file named after it.

## Model

| member | source | states |
|---|---|---|
| Av.Reciprocal | pupil_audio/nonblocking/pyaudio2pyav.py:177 | `Fraction(1, n)` exists exactly for n ≠ 0; it is in lowest terms with a positive denominator and its value times n is 1 |
| Av.ChannelLayoutsDomain | pupil_audio/nonblocking/pyaudio2pyav.py:99-109 | the layout table covers exactly the channel counts 1 to 8 and 16 |
| Av.FrameSamples | pupil_audio/pyav.py:114-121 | the frame shape rules: a planar format needs a 2-D array with one row per channel and takes the columns as samples; a packed format needs exactly one row and takes columns ÷ channels; anything else fails the assertion |
| NdArray.Is2DValid | pupil_audio/pyaudio.py:51 | for a two-element shape, "the element count matches the shape" and "rows × columns elements" are the same condition |
| NdArray.Reshape | pupil_audio/nonblocking/pyaudio2pyav.py:149 | `np.reshape` succeeds exactly when the new shape has as many elements as the array, and then keeps the elements in C order and the dtype |
| NdArray.ChunkRow | pupil_audio/pyaudio.py:51 | after reshaping to (rows, width), row i is the slice [i·width, (i+1)·width) of the flat elements |
| NdArray.ConcatChunk | pupil_audio/pyaudio.py:60 | C-order `flatten()` of a reshaped array gives back the original elements |
| NdArray.ChunkConcat | pupil_audio/pyaudio.py:51 | reshaping the concatenation of equal-length rows gives back those rows |
| NdArray.Rows | pupil_audio/pyaudio.py:51 | a 2-D array has shape[0] rows, each shape[1] long |
| NdArray.RowsElement | pupil_audio/pyaudio.py:36-52 | element (i, j) of a 2-D array is data element i·columns + j |
| NdArray.Transpose | pupil_audio/pyav.py:43-48 | the transpose has one row per column, and element (j, i) of the result is element (i, j) of the input |
| NdArray.TransposeTwice | pupil_audio/pyav.py:43-48 | transposing twice gives back the rows |
| NdArray.FlattenF | pupil_audio/nonblocking/pyaudio2pyav.py:155 | `flatten(order='F')` keeps the element count |
| NdArray.FlattenFRows | pupil_audio/nonblocking/pyaudio2pyav.py:153-161 | reading the column-major flattening of an (r, c) array as c rows of r elements yields exactly the columns of the array |
| NdArray.FlattenFTransposed | pupil_audio/nonblocking/pyaudio2pyav.py:153-161 | column-major flattening of the (c, r) planar array restores the interleaved C-order elements |
| PyAudioCodec.DtypeFromFormat | pupil_audio/pyaudio.py:66-73 | only paFloat32 and paInt16 map to a dtype; every other format raises NotImplementedError |
| PyAudioCodec.FormatFromDtype | pupil_audio/pyaudio.py:75-82 | only float32 and int16 map to a format; every other dtype raises NotImplementedError |
| PyAudioCodec.FormatDtypeInverse | pupil_audio/blocking/pyaudio.py:62-78 | the two helpers are mutual inverses: f maps to d exactly when d maps to f |
| PyAudioCodec.New | pupil_audio/pyaudio.py:24-34 | both or neither of format and dtype raise ValueError; given one, construction succeeds exactly when the helper maps it, and the stored format and dtype correspond |
| PyAudioCodec.MulDiv | pupil_audio/pyaudio.py:48-49 | a buffer of whole frames passes the divisibility assertion and divides back into the same frame count |
| PyAudioCodec.Decode | pupil_audio/pyaudio.py:36-52 | with 0 channels the division fails; otherwise decoding succeeds exactly when the sample count is a multiple of the channel count; the result is a (samples ÷ ch, ch) array of the codec's dtype whose rows, concatenated, are the buffer |
| PyAudioCodec.DecodeRow | pupil_audio/blocking/pyaudio.py:32-48 | row i of the decoded array is frame i: the samples [i·ch, (i+1)·ch), in the order L0, R0, L1, R1, … |
| PyAudioCodec.Encode | pupil_audio/pyaudio.py:54-64 | `astype(dtype)` then `flatten()`: the element count is kept; an array already of the codec's dtype is flattened row by row; a cast sample is representable in the target dtype, congruent to the input modulo 2^bits for an integer target, and unchanged when it was already representable |
| PyAudioCodec.EncodeRepresentable | pupil_audio/blocking/pyaudio.py:50-60 | when every sample fits the codec's dtype, encoding is the row-major flatten whatever the array's own dtype |
| PyAudioCodec.EncodeDecode | pupil_audio/blocking/pyaudio.py:32-60 | `encode(decode(b)) == b` for every buffer decode accepts |
| PyAudioCodec.DecodeEncode | pupil_audio/pyaudio.py:36-64 | `decode(encode(a)) == a` for every (frames, channels) array of the codec's dtype |
| PyAVCodec.DtypeFromFormat | pupil_audio/pyav.py:56-61 | only "s16p" maps to a dtype (int16); any other format raises NotImplementedError |
| PyAVCodec.FormatFromDtype | pupil_audio/pyav.py:63-68 | only int16 maps to a format ("s16p"); any other dtype raises NotImplementedError |
| PyAVCodec.New | pupil_audio/pyav.py:19-29 | both or neither of format and dtype raise ValueError; a single unsupported one raises NotImplementedError; every codec built is ("s16p", int16) with the given channels and rate |
| PyAVCodec.NewValid | pupil_audio/pyav.py:19-29 | every constructed codec pairs "s16p" with int16 |
| PyAVCodec.FrameFromNdarray | pupil_audio/pyav.py:97-126 | the checks in source order: an unknown channel count raises KeyError, an unknown format ValueError, a dtype mismatch AssertionError; success exactly for a 2-D array meeting the planar/packed shape rule; the frame has the format, the layout of the channel count, the computed sample count and the array's rows as planes |
| PyAVCodec.Encode | pupil_audio/pyav.py:34-54 | 0 channels fail the division, a count not divisible by the channels fails the assertion, an unknown layout raises KeyError, a non-int16 array fails the dtype assertion; otherwise the frame carries the codec's rate, "s16p", the layout, samples = elements ÷ channels, and its planes are the column-major flattening cut into `channels` rows |
| PyAVCodec.EncodePlanes | pupil_audio/pyav.py:43-48 | for a (frames, channels) array, plane c of the encoded frame is column c of the array and the frame has one sample per array row |
| PyAVCodec.EncodeInterleave | pupil_audio/pyav.py:43-50 | re-interleaving the encoded planes gives back the array's elements in C order |
| PyAVCodec.DecodeThenEncode | pupil_audio/pyav.py:43-50 | a buffer decoded by `PyAudioCodec` and encoded here is de-interleaved: sample i of plane j is buffer sample i·channels + j |
| Transcoder.SupportedDtypes | pupil_audio/nonblocking/pyaudio2pyav.py:111-115 | the supported set is exactly {f4, i2, i4, u1, f8}, the union of the two tables' keys |
| Transcoder.New | pupil_audio/nonblocking/pyaudio2pyav.py:67-74 | with dtype defaulting to int16, construction succeeds exactly for a supported dtype, else AssertionError; rate, channels and dtype are kept and the frame counter starts at 0 |
| Transcoder.NewAsWritten | pupil_audio/nonblocking/pyaudio2pyav.py:67-74 | the constructor as written always succeeds and always yields an int16 transcoder at counter 0, whatever dtype was requested |
| Transcoder.NewAsWrittenIgnoresDtype | pupil_audio/nonblocking/pyaudio2pyav.py:68-69 | `dtype or np.dtype("int16")` turns a float32 request into an int16 transcoder and lets an unsupported int8 through, where the corrected constructor keeps float32 and rejects int8 |
| Transcoder.PyaudioFormat | pupil_audio/nonblocking/pyaudio2pyav.py:117-122 | the PyAudio format exists exactly for f4, i2, i4 and u1, each mapped to its own constant (paFloat32, paInt16, paInt32, paUInt8), so f8 (accepted at construction) raises ValueError |
| Transcoder.PyaudioFormatWidth | pupil_audio/nonblocking/pyaudio2pyav.py:82-87 | each mapped PyAudio format has the byte width of its dtype |
| Transcoder.PyavFormat | pupil_audio/nonblocking/pyaudio2pyav.py:124-130 | the PyAV format exists exactly for the supported dtypes, is the planar member of the pair, and PyAV's own table maps it back to the dtype; otherwise ValueError |
| Transcoder.FormatFamilies | pupil_audio/nonblocking/pyaudio2pyav.py:90-96 | both names of each pair are PyAV formats of that same dtype, the first packed and the second planar |
| Transcoder.PyavLayout | pupil_audio/nonblocking/pyaudio2pyav.py:132-137 | the layout exists exactly for 1 to 8 and 16 channels, else ValueError |
| Transcoder.Transcode | pupil_audio/nonblocking/pyaudio2pyav.py:139-181 | the error order (division by zero channels, divisibility assertion, format, layout, zero frame rate); success exactly when all pass; the frame has samples = buffer ÷ channels, planes = the transposed frame rows, the planar format, the layout, rate, time base 1/rate and pts = samples × frames encoded before; the timestamp is the ADC time; the counter advances by exactly 1 |
| Transcoder.TranscodeDeinterleave | pupil_audio/nonblocking/pyaudio2pyav.py:149-174 | sample i of plane j is buffer sample i·channels + j |
| Transcoder.TranscodeInterleave | pupil_audio/nonblocking/pyaudio2pyav.py:149-174 | re-interleaving the planes restores the buffer: nothing is lost or reordered |
| Transcoder.Advance | pupil_audio/nonblocking/pyaudio2pyav.py:179 | k more calls change only the counter, by k |
| Transcoder.Run | pupil_audio/nonblocking/pyav.py:46-60 | a successful run over queued items yields one result per item |
| Transcoder.RunCounts | pupil_audio/nonblocking/pyaudio2pyav.py:178-179 | a run of a counting step ends with the counter advanced once per item |
| Transcoder.RunAt | pupil_audio/nonblocking/pyav.py:46-60 | result k of a run is the step applied to item k after k earlier successful calls |
| Transcoder.TranscodeCounts | pupil_audio/nonblocking/pyaudio2pyav.py:178-179 | every successful `transcode` advances the counter by exactly one |
| Transcoder.TranscodeSeq | pupil_audio/nonblocking/pyaudio2pyav.py:74 | transcoding n buffers in order yields n frames and leaves the counter n higher; nothing resets it |
| Transcoder.TranscodeSeqAt | pupil_audio/nonblocking/pyaudio2pyav.py:176-181 | frame k of a run is what a single call returns after k frames |
| Transcoder.TranscodeSeqPts | pupil_audio/nonblocking/pyaudio2pyav.py:178 | from a fresh transcoder with n samples per channel in every buffer, frame k gets pts n·k: 0, n, 2n, … |
| Transcoder.TranscodePts | pupil_audio/nonblocking/pyaudio2pyav.py:178 | a buffer of n samples per channel gets pts = n × the frames encoded before it |
| Transcoder.RunLoop | pupil_audio/nonblocking/pyav.py:46-60 | the loop that threads the transcoder through the items computes exactly the run |
| Transcoder.TranscodeAll | pupil_audio/nonblocking/pyav.py:46-60 | the sink loop with the package transcoder computes exactly the in-order run of `transcode` |
| Devices.Keep | pupil_audio/utils/pyaudio.py:197-202 | a generator filter yields exactly the devices satisfying its rule and never more than it was given |
| Devices.KeepAppend | pupil_audio/utils/pyaudio.py:197-202 | filtering keeps the enumeration order: it distributes over concatenation |
| Devices.Reindex | pupil_audio/utils/pyaudio.py:205-207 | each device's index becomes its enumeration position, excluded devices still counted |
| Devices.FilterOn | pupil_audio/utils/pyaudio.py:170-177 | Linux keeps "hw:" names and "default", macOS re-indexes and then drops "NoMachine" names, Windows keeps every device, any other system is unsupported |
| Devices.MacosFilter | pupil_audio/utils/pyaudio.py:204-209 | a device is in the macOS result exactly when it is an enumerated device without "NoMachine" in its name, carrying its enumeration position as index |
| Devices.DefaultApiType | pupil_audio/utils/pyaudio.py:50-59 | ALSA, CoreAudio or DirectSound by system; any other system raises the unsupported-system error |
| Devices.QueryRange | pupil_audio/utils/pyaudio.py:61-68 | the devices enumerated are exactly the successful queries of indices 0 .. n-1, an index whose query raises IOError being skipped |
| Devices.AnsweredIndices | pupil_audio/utils/pyaudio.py:63-68 | the indices below the count whose query answers, each once and in ascending order |
| Devices.QueryRangeAnswers | pupil_audio/utils/pyaudio.py:61-68 | the k-th device enumerated is the answer to the k-th answering index: enumeration keeps index order and yields one device per answering index |
| Devices.EnumerateHostDevices | pupil_audio/utils/pyaudio.py:36 | with a missing or zero device count nothing is enumerated; otherwise every index below the count is queried |
| Devices.Enumerate | pupil_audio/utils/pyaudio.py:160-177 | with no default host API it yields nothing; otherwise the default API's devices through the system's filter; an unsupported system fails |
| Devices.ByName | pupil_audio/utils/pyaudio.py:156-158 | the map is keyed by name: every device's name is a key and every entry is a device of the list stored under its own name |
| Devices.InitMembers | pupil_audio/utils/pyaudio.py:157-158 | the members of a non-empty list are those of its prefix and its last element |
| Devices.ByNameLastWins | pupil_audio/utils/pyaudio.py:157-158 | a later device with a duplicate name overwrites the earlier one: a device no later device shares a name with is the entry for its name |
| Devices.ByNameKeys | pupil_audio/utils/pyaudio.py:157-158 | the keys are exactly the names of the devices |
| Devices.InputsByName | pupil_audio/utils/pyaudio.py:148-150 | the inputs view is exactly the sub-map of devices with max_input_channels > 0, a missing key counting as 0 |
| Devices.OutputsByName | pupil_audio/utils/pyaudio.py:152-154 | the outputs view is exactly the sub-map of devices with max_output_channels > 0, a missing key counting as 0 |
| Devices.NamedDevice | pupil_audio/utils/pyaudio.py:189-195 | a present name returns its entry; a missing one raises ValueError whose message lists the available names sorted and joined by ", " |
| Devices.NamedDeviceListsNames | pupil_audio/utils/pyaudio.py:190-195 | a missing name fails with ValueError "No device named "<name>". Available devices: <names>.", where the list holds every available name exactly once, in ascending order, joined by ", " |
| Devices.DevicesByName | pupil_audio/utils/pyaudio.py:156-158 | the device map is the name map of what `enumerate` yields |
| Devices.NamedInput | pupil_audio/utils/pyaudio.py:140-158 | an unsupported OS raises NotImplementedError; otherwise the result is the named lookup in the input view of the name-keyed map of the enumerated devices, so a success is an enumerated input device of that name |
| Devices.NamedOutput | pupil_audio/utils/pyaudio.py:144-158 | an unsupported OS raises NotImplementedError; otherwise the result is the named lookup in the output view of the name-keyed map of the enumerated devices, so a success is an enumerated output device of that name |
| Devices.IsInput | pupil_audio/utils/pyaudio.py:124-126 | a device is an input exactly when its max input channel count is present and positive |
| Devices.IsOutput | pupil_audio/utils/pyaudio.py:128-130 | a device is an output exactly when its max output channel count is present and positive |
| Devices.LegacyDevices | pupil_audio/pyaudio.py:213-259 | the map is seeded with "No Audio" and then filled, by name and last writer winning, with the filtered devices of the system's host API; other systems raise NotImplementedError |
| Devices.NoAudioNeitherInputNorOutput | pupil_audio/pyaudio.py:173-176 | unless a real device is called "No Audio", the seeded entry stays and is neither an input nor an output |
| Devices.LegacyInputInfo | pupil_audio/pyaudio.py:195-210 | the named lookup among the input entries: a result is an input device of that name and never the "No Audio" entry |
| Devices.InsertByIndex | pupil_audio/pyaudio.py:147-149 | inserting into an index-sorted list keeps it sorted and adds exactly that device |
| Devices.InsertLowerBound | pupil_audio/pyaudio.py:147-149 | a lower bound of the inserted device and of the list bounds every element after insertion |
| Devices.SortByIndex | pupil_audio/pyaudio.py:147-149 | sorting by index yields an index-ordered permutation of its input |
| Devices.Values | pupil_audio/pyaudio.py:149 | a map's values listed once per key |
| Devices.EnumerateDevices | pupil_audio/blocking/pyaudio.py:143-145 | `enumerate_devices` returns one entry per map key, exactly the map's values, in non-decreasing index order |
| Example.FromInputDevice | examples/pyaudio_in_pyav_out_api.py:392-402 | the older directory's input lookup errors propagate; a device without a default sample rate raises KeyError; otherwise the capture records from the device's index at its rate and input channel count to the given path |
| Manager.Acquire | pupil_audio/utils/pyaudio.py:264-271 | acquiring always yields a session that was not already acquired, adds exactly it to the acquired set and takes the lock once more |
| Manager.Release | pupil_audio/utils/pyaudio.py:276-285 | releasing `None` changes nothing; a session that was not acquired raises ValueError; an acquired one is removed from the set and nothing else is forgotten |
| Manager.CardRemove | pupil_audio/utils/pyaudio.py:281 | removing a member shrinks the set by exactly one, matching one lock release |
| Manager.AcquireRelease | pupil_audio/utils/pyaudio.py:264-285 | releasing the session just acquired restores the acquired set and the lock count |
| Manager.SharedInstance | pupil_audio/utils/pyaudio.py:287-294 | the context manager keeps the acquired set consistent with the lock count |
| Manager.SharedInstanceReleases | pupil_audio/utils/pyaudio.py:287-294 | the session the context acquired is always released, whatever the body returned or raised, and the body's outcome is the context's |
| KeyProperty.Make | pupil_audio/utils/__init__.py:1-9 | `readonly` defaults to False and must be a bool (else AssertionError); key, default and type are kept as given |
| KeyProperty.Get | pupil_audio/utils/__init__.py:11-18 | a present key returns the stored value; a missing one returns the supplied default, even a None default; with no default the KeyError propagates |
| KeyProperty.Set | pupil_audio/utils/__init__.py:20-28 | a read-only property has no setter (AttributeError); a type-checked property rejects a non-instance with TypeError; otherwise exactly the key is set to the value and every other key is untouched |
| KeyProperty.Delete | pupil_audio/utils/__init__.py:25-28 | neither kind of property has a deleter |
| KeyProperty.GetAfterSet | pupil_audio/utils/__init__.py:11-23 | a get after a successful set returns the value set, and a property on another key reads as before |
| KeyProperty.SetSetAndSetGet | pupil_audio/utils/__init__.py:20-23 | two sets keep only the second value, and setting the value just read changes nothing |
| KeyProperty.Capabilities | examples/pyaudio_in_pyav_out_api.py:2-29 | a read-only property only reads, a writable unchecked one also writes, neither deletes, and omitting `readonly` makes it writable |
| Fifo.Unbounded | pupil_audio/nonblocking/pyaudio2pyav.py:28 | `queue.Queue()` starts empty and unbounded |
| Fifo.Put | pupil_audio/nonblocking/pyaudio.py:51-53 | `put_nowait` raises Full exactly on a full queue and otherwise appends the item at the back |
| Fifo.Get | pupil_audio/nonblocking/pyav.py:47-49 | `get_nowait` raises Empty exactly on an empty queue and otherwise removes the front item |
| Fifo.Offer | pupil_audio/nonblocking/pyaudio.py:51-56 | a put whose Full is swallowed appends when there is room and otherwise leaves the queue as it was |
| Fifo.OfferAllKeepsPrefix | pupil_audio/nonblocking/pyaudio.py:51-56 | with no reader, a queue with room for K more items keeps the first K offered items in order and drops the rest; an unbounded one keeps all |
| Fifo.DrainIsItems | pupil_audio/nonblocking/pyav.py:46-53 | taking items until Empty yields exactly the queued items, first in first out |
| Source.New | pupil_audio/nonblocking/pyaudio.py:10-17 | a new source holds no session and no stream and is not running |
| Source.Start | pupil_audio/nonblocking/pyaudio.py:22-34 | afterwards the stream exists and is active; a held session is reused and the manager untouched, otherwise exactly one new session is acquired; nothing else changes |
| Source.StartIdempotent | pupil_audio/nonblocking/pyaudio.py:22-34 | a second start reuses session and stream and changes nothing |
| Source.Stop | pupil_audio/nonblocking/pyaudio.py:36-43 | afterwards no stream exists; a held, acquired session is released and cleared; with no session the manager is untouched; a failed release is reported |
| Source.StopIdempotent | pupil_audio/nonblocking/pyaudio.py:36-43 | a second stop is a no-op |
| Source.StartStopBalanced | pupil_audio/nonblocking/pyaudio.py:22-43 | the session a start acquires is released by the following stop, leaving the manager's acquired set as it was |
| Source.Callback | pupil_audio/nonblocking/pyaudio.py:45-58 | the byte-length assertion decides success; after it passes, exactly one (buffer, time info) item is appended, or the queue is unchanged when full, and the reply is (None, paContinue) |
| Source.CallbackCountsSamples | pupil_audio/nonblocking/pyaudio.py:47-49 | the byte-length check passes exactly when the buffer holds frame_count × channels samples |
| Source.MulCancel | pupil_audio/nonblocking/pyaudio.py:48-49 | different sample counts of one positive width have different byte lengths |
| Source.ExampleCallback | examples/pyaudio_in_pyav_out_api.py:108-129 | the example's callback queues (buffer, ADC time), or leaves a full queue unchanged, and always returns (None, paContinue) |
| Source.IsRunning | pupil_audio/nonblocking/pyaudio.py:19-20 | the source runs exactly when it holds a stream and that stream is active |
| Source.ExampleStart | examples/pyaudio_in_pyav_out_api.py:83-95 | the example's start leaves an active stream; it keeps a held session and otherwise holds the session it created itself, and changes nothing else |
| Source.ExampleStop | examples/pyaudio_in_pyav_out_api.py:99-106 | the example's stop drops the stream and the session and terminates exactly the session it held |
| Source.ExampleSessionOnly | examples/pyaudio_in_pyav_out_api.py:83-106 | the example's start and stop differ from the package source only in the session: a start agrees with the package start apart from the session, a stop agrees with the package stop whenever the release succeeds, and a stop after a sessionless start terminates the session that start created |
| Container.Open | pupil_audio/nonblocking/pyav.py:43-44 | a freshly opened container has logged nothing and is open |
| Container.EncodeMux | pupil_audio/nonblocking/pyav.py:59-60 | the input is handed to the encoder once and every packet it returns is muxed, in order, after the earlier ones |
| Container.Finish | pupil_audio/nonblocking/pyav.py:62-65 | the flush `encode(None)` is logged, its packets are muxed and the container is closed |
| Container.FlushesAppend | pupil_audio/nonblocking/pyav.py:62-63 | flush counts add up over concatenated logs |
| Container.NewOutputStream | pupil_audio/pyav.py:137-147 | construction builds the PyAV codec and fails exactly when that does, with its error; defaults (format omitted, int16) succeed; a new stream has the "s16p" int16 codec for its channels and rate, keeps path and rate and has no container |
| Container.WriteRaw | pupil_audio/pyav.py:153-162 | the first write opens the container; every write clears the frame's pts and encodes and muxes it on the (now) open container |
| Container.Close | pupil_audio/pyav.py:164-171 | close forgets the container; it flushes and closes exactly when one was open, and is otherwise a no-op |
| Container.Unstamped | pupil_audio/pyav.py:159 | each frame reaches the encoder once with its pts cleared |
| Container.WriteAllInputs | pupil_audio/pyav.py:153-162 | writes on an open stream reach the encoder as the frames, pts cleared, in write order, and nothing else is logged |
| Container.UnstampedCons | pupil_audio/pyav.py:159 | the cleared frames of a list are those of its head followed by those of its tail |
| Container.WriteAllThenClose | pupil_audio/pyav.py:153-171 | writes then close: the log is the frames then exactly one flush, the container is closed, and a second close does nothing |
| Container.NoFlushes | pupil_audio/pyav.py:159-162 | writing frames never flushes |
| Container.CloseUnopened | pupil_audio/pyav.py:164-165 | closing before any write does nothing |
| Sink.Frames | pupil_audio/nonblocking/pyav.py:55 | a successful run of the transcoder over the taken items yields one frame per item |
| Sink.FramesStateless | pupil_audio/nonblocking/pyav.py:46-57 | with a transcoder that keeps no state, the loop turns item k into that item's own frame and ends in the state it started in |
| Sink.FailAt | pupil_audio/nonblocking/pyav.py:46-60 | when the loop fails, the item it failed on: every earlier item was consumed successfully and that item raised the loop's error |
| Sink.FailAtSplit | pupil_audio/nonblocking/pyav.py:46-60 | over a + b the loop fails on the same item as over a when a fails, and otherwise on |a| plus the item it fails on in b |
| Sink.Consume | pupil_audio/nonblocking/pyav.py:55-60 | one loop turn succeeds exactly when `transcode` does, then encodes and muxes the frame with its pts cleared and keeps the transcoder's next state |
| Sink.ConsumeAllFeeds | pupil_audio/nonblocking/pyav.py:46-60 | the loop feeds the encoder exactly the frames of the transcoder's run over the items, in FIFO order, each once, pts cleared, with no flush and the container still open |
| Sink.Record | pupil_audio/nonblocking/pyav.py:46-65 | the thread's recording succeeds exactly when `transcode` succeeds on every item; then the file is closed and logs the earlier inputs, the frames with pts cleared and one flush, and the transcoder is in its final state |
| Sink.RecordLog | pupil_audio/nonblocking/pyav.py:46-65 | a recording on a fresh container logs the frames of the queued items in FIFO order, then exactly one flush, and closes |
| Sink.Drain | pupil_audio/nonblocking/pyav.py:46-65 | once running is clear the loop takes items until Empty and then flushes and closes, which is the recording; on success the queue ends empty, and when `transcode` raises the items after the failing one are still queued |
| Sink.New | pupil_audio/nonblocking/pyav.py:9-17 | a new sink is not running and has no thread |
| Sink.Start | pupil_audio/nonblocking/pyav.py:23-33 | start is a no-op while running; otherwise the flag is set and a thread starts on a freshly opened container |
| Sink.Pump | pupil_audio/nonblocking/pyav.py:46-60 | while running, the thread takes items from the front of the queue only; when `transcode` raises, the thread dies on that item with its error and takes no more; a stopped or dead sink takes nothing |
| Sink.ConsumeAllSplit | pupil_audio/nonblocking/pyav.py:46-60 | the loop over a + b is the loop over a followed by the loop over b |
| Sink.Stop | pupil_audio/nonblocking/pyav.py:35-40 | stop is a no-op when not running; otherwise the flag is clear and no thread remains; a thread that died earlier reports its error and leaves the queue; otherwise the thread drains the queue, flushes and closes, or dies on the item whose `transcode` raises, leaving the later items queued |
| Sink.PumpThenStop | pupil_audio/nonblocking/pyav.py:46-53 | how much the thread took before `stop`, and whether it died doing so, does not change the file, the error or the queue `stop` leaves |
| Sink.PumpSurvivesThenStop | pupil_audio/nonblocking/pyav.py:46-60 | a thread that consumed a prefix without error stops exactly as the thread that had consumed nothing |
| Sink.SurvivorFinishes | pupil_audio/nonblocking/pyav.py:46-65 | a thread whose remaining loop succeeds ends with the same file whether or not it consumed the prefix first |
| Sink.SurvivorDiesLater | pupil_audio/nonblocking/pyav.py:46-65 | a thread that dies on a later item stops with the same error, loop state and remaining queue whether or not it consumed the prefix first |
| Sink.PumpDiesThenStop | pupil_audio/nonblocking/pyav.py:46-60 | a thread that died while pumping stops exactly as the thread that had consumed nothing would |
| Sink.StartThenStop | pupil_audio/nonblocking/pyav.py:23-65 | start then stop with items queued: the file logs their frames in FIFO order then one flush, and the queue ends empty |
| Sink.StartStopNoOps | pupil_audio/nonblocking/pyav.py:23-25 | starting a running sink and stopping a stopped one change nothing |
| Sink.TranscoderStep | pupil_audio/nonblocking/pyav.py:55 | the package transcoder as a loop step succeeds exactly when `transcode` does, yields its frame and advances the counter by one |
| Sink.FramesOfRun | pupil_audio/nonblocking/pyav.py:46-57 | a loop step that yields a transcoder's frame and next state succeeds on a queue exactly when that transcoder's run does, and then yields the run's frames in order and its final state |
| Sink.TranscoderFrames | pupil_audio/nonblocking/pyav.py:46-57 | with the package transcoder, item k of the queue becomes frame k of the in-order transcode run |
| Sink.TranscoderRecording | pupil_audio/nonblocking/pyav.py:46-65 | a recording with the package transcoder logs, for each queued buffer in FIFO order, its transcoded frame with pts cleared, then one flush; the counter advances once per buffer |
| Capture.FrameRate | pupil_audio/nonblocking/pyaudio2pyav.py:25 | a missing or zero rate falls back to the device's default rate, whose absence is a KeyError |
| Capture.Channels | pupil_audio/nonblocking/pyaudio2pyav.py:26 | a missing or zero channel count falls back to the device's positive input channel count |
| Capture.FromDevice | pupil_audio/nonblocking/pyaudio2pyav.py:22-54 | the corrected construction succeeds exactly when the rate resolves, the transcoder accepts the dtype and both formats exist; source and sink then share the transcoder's rate, channels and format and one empty unbounded queue, and nothing is running |
| Capture.FromDeviceAsWritten | pupil_audio/nonblocking/pyaudio2pyav.py:22-54 | as written (transcoder constructor line 68): construction fails only with KeyError for a missing rate; it always builds an int16 transcoder at counter 0 with a paInt16 source on the device and an empty queue, and agrees with the corrected construction when the requested dtype is int16 or omitted |
| Capture.New | pupil_audio/nonblocking/pyaudio2pyav.py:22-54 | the device lookup's error comes first; otherwise the capture is the corrected construction on the named input device; a constructed capture is consistent, its counter is 0 and its queue empty |
| Capture.Start | pupil_audio/nonblocking/pyaudio2pyav.py:56-58 | start starts the sink (its thread beginning from the current transcoder) and then the source; both run afterwards and the queue is untouched |
| Capture.Callback | pupil_audio/nonblocking/pyaudio.py:45-58 | a callback on the capture succeeds exactly for a well-sized buffer and then only appends it to the shared queue |
| Capture.Feed | pupil_audio/nonblocking/pyaudio.py:45-58 | successive callbacks keep the capture consistent; a run succeeds exactly when every buffer is well sized, and then appends every buffer with its time information, in call order, and changes nothing else |
| Capture.Queued | pupil_audio/nonblocking/pyaudio.py:52 | what the callbacks queue: each buffer with its time information, in call order |
| Capture.Enqueued | pupil_audio/nonblocking/pyaudio.py:52 | appending items to the queue keeps the earlier items in front and changes nothing else |
| Capture.EnqueuedTwice | pupil_audio/nonblocking/pyaudio.py:52 | appending in two turns is appending once |
| Capture.QueuedCons | pupil_audio/nonblocking/pyaudio.py:52 | the queued items of a call list are those of its first call followed by the rest |
| Capture.FeedStep | pupil_audio/nonblocking/pyaudio.py:47-52 | a well-sized first buffer is queued and the rest follows; a badly sized one fails the feed |
| Capture.WellSizedCons | pupil_audio/nonblocking/pyaudio.py:47-49 | a call list is well sized exactly when its first call and the rest are |
| Capture.Stop | pupil_audio/nonblocking/pyaudio2pyav.py:60-62 | stop stops the sink and then the source: neither runs afterwards, the source's acquired session is released, and stopping a stopped sink leaves queue and transcoder alone |
| Capture.LoopCounter | pupil_audio/nonblocking/pyaudio2pyav.py:49 | the sink's transcoder is the capture's: only its counter moves, to where the thread's loop left it, whether the thread finished or died |
| Capture.LoopFile | pupil_audio/nonblocking/pyav.py:62-65 | the sink thread leaves its closed file, or the error it died on, or nothing when it was not running |
| Capture.StopWritesQueue | pupil_audio/nonblocking/pyaudio2pyav.py:60-62 | stopping a running capture writes, in FIFO order, the transcoded frame of every queued buffer with pts cleared, then one flush; the queue ends empty and the counter advances once per buffer |
| Capture.StopOnFailedTranscode | pupil_audio/nonblocking/pyav.py:46-58 | when `transcode` raises on a queued buffer, stopping reports the error, the buffers before it advanced the counter, and the buffers after it stay queued |
| Capture.RecordsEveryBuffer | pupil_audio/nonblocking/pyaudio2pyav.py:56-62 | start, well-sized callbacks, stop: every buffer is queued in delivery order for the file and the session taken at start is given back |
| DebugStore.DerivedAsWritten | examples/capture_nonblocking_pyaudio2pyav.py:64-67 | the side-file path exactly as written fails, with ValueError, on an output path that has no name |
| DebugStore.Derived | examples/capture_nonblocking_pyaudio2pyav.py:64-67 | the corrected side-file path fails, with ValueError, on an output path that has no name |
| DebugStore.DerivedShape | examples/capture_nonblocking_pyaudio2pyav.py:64-67 | for a named output the corrected side file exists and sits in the output's directory under the output's stem, the tag and the extension |
| DebugStore.DerivedAsWrittenLosesTag | examples/capture_nonblocking_pyaudio2pyav.py:66 | for an output named "x.out.mp4" the raw-buffer path as written is "x.dat" where "x.out_raw_buffer.dat" is meant |
| DebugStore.DerivedAgree | examples/capture_nonblocking_pyaudio2pyav.py:64-67 | when the output's stem has no inner dot, the as-written and the corrected path are the same |
| DebugStore.New | examples/capture_nonblocking_pyaudio2pyav.py:63-69 | the corrected store is built exactly for a named output path, with nothing open and the two side files derived from it by the corrected rule |
| DebugStore.NewAsWritten | examples/capture_nonblocking_pyaudio2pyav.py:63-69 | the store as written is built exactly when the corrected one is, with nothing open and the side files of the as-written rule |
| DebugStore.DerivedAsWrittenOk | examples/capture_nonblocking_pyaudio2pyav.py:66-67 | as written, a named output always has its side files |
| DebugStore.NewAsWrittenPaths | examples/capture_nonblocking_pyaudio2pyav.py:66-67 | for an output "<head>.<mid>.<last>" in a directory, the store as written keeps its raw buffers in "<head>.dat" and its timestamps in "<head>.npy" there |
| DebugStore.DistinctSideFiles | examples/capture_nonblocking_pyaudio2pyav.py:66-67 | the raw-buffer file and the timestamps file of one output are different paths |
| DebugStore.DistinctExtensions | examples/capture_nonblocking_pyaudio2pyav.py:66-67 | side files whose extensions end differently are different paths |
| DebugStore.IsOpenedInverted | examples/capture_nonblocking_pyaudio2pyav.py:71-73 | `is_opened` as written holds exactly when the store is not open |
| DebugStore.IsOpenedAsWritten | examples/capture_nonblocking_pyaudio2pyav.py:71-73 | the property as written is true exactly when the store is not open |
| DebugStore.Open | examples/capture_nonblocking_pyaudio2pyav.py:75-79 | afterwards the store is open; a file or list already there is kept and a missing one starts empty; nothing else changes |
| DebugStore.OpenIdempotent | examples/capture_nonblocking_pyaudio2pyav.py:75-79 | opening twice is opening once, and opening an open store changes nothing |
| DebugStore.WriteAsWritten | examples/capture_nonblocking_pyaudio2pyav.py:81-88 | as written, a write succeeds exactly on an already open store (otherwise AttributeError on None) and then appends the buffer and one (clock − delay, length) row |
| DebugStore.Write | examples/capture_nonblocking_pyaudio2pyav.py:81-88 | the corrected write opens the store when needed, appends the buffer to the file and one (clock − delay, length) row, and changes nothing else |
| DebugStore.WriteAsWrittenAgreesWhenOpened | examples/capture_nonblocking_pyaudio2pyav.py:81-88 | on an open store the two writes agree; on a store without a file the written one raises AttributeError |
| DebugStore.Close | examples/capture_nonblocking_pyaudio2pyav.py:90-97 | afterwards nothing is open; what was open is saved to its file and what was not leaves the saved file as it was; the paths are kept |
| DebugStore.CloseIdempotent | examples/capture_nonblocking_pyaudio2pyav.py:90-97 | closing twice is closing once |
| DebugStore.WriteAllAppends | examples/capture_nonblocking_pyaudio2pyav.py:87-88 | writes on an open store append every buffer in order to the file and exactly one row per write, in order, after the earlier rows |
| DebugStore.Session | examples/capture_nonblocking_pyaudio2pyav.py:75-97 | open, writes, close on a fresh store: the saved file holds all buffers in order and the saved rows are exactly one per write, in order |
| DebugStore.NewTranscoder | examples/capture_nonblocking_pyaudio2pyav.py:43-46 | the package transcoder's error comes first; then a missing or empty debug path fails the assertion; otherwise the base is the package transcoder and the store is the path's store |
| DebugStore.Abs | examples/capture_nonblocking_pyaudio2pyav.py:49 | the delay is the magnitude of the difference |
| DebugStore.Start | examples/capture_nonblocking_pyaudio2pyav.py:53-55 | start opens the store and leaves the package transcoder alone |
| DebugStore.Stop | examples/capture_nonblocking_pyaudio2pyav.py:57-59 | stop closes the store and leaves the package transcoder alone |
| DebugStore.Transcode | examples/capture_nonblocking_pyaudio2pyav.py:48-51 | the result is the package transcoder's; the store receives the buffer, its byte length and a timestamp no later than the clock; the base advances only on success |
| DebugStore.TranscodeAsWritten | examples/capture_nonblocking_pyaudio2pyav.py:48-51 | as written, a store that was never opened makes every call fail with AttributeError |
| DebugStore.FirstBufferFails | examples/capture_nonblocking_pyaudio2pyav.py:17-22 | the capture never starts the transcoder, so as written the first buffer fails, while the corrected one records it and returns the package result; once started the two agree |
| DebugStore.AsWrittenAgreesWhenOpened | examples/capture_nonblocking_pyaudio2pyav.py:48-51 | on an open store the as-written and the corrected transcode agree whenever the package transcoder succeeds |
| DebugStore.TranscodeAllRecords | examples/capture_nonblocking_pyaudio2pyav.py:48-51 | over a run the package transcoder succeeds on, the debug transcoder returns the same frames and final state and writes each call's buffer once, in order |
| DebugStore.TranscodeAllStore | examples/capture_nonblocking_pyaudio2pyav.py:50 | every call of a completed run writes its buffer to the store once, in call order |
| Paths.Parse | examples/capture_nonblocking_pyaudio2pyav.py:65 | `Path(s)` yields valid components and is absolute exactly when the text starts with "/" |
| Paths.Name | examples/capture_nonblocking_pyaudio2pyav.py:66 | `.name` is the last component, and empty for a path with none |
| Paths.ToString | examples/utils.py:54 | `str` of a valid path is non-empty and starts with "/" exactly when the path is absolute |
| Paths.ParseToString | examples/capture_nonblocking_pyaudio2pyav.py:65-66 | printing a valid path and parsing it back gives the same path |
| Paths.Parent | examples/pyaudio_in_wave_out.py:26 | `.parent` keeps absoluteness and drops exactly the last component (the root is its own parent) |
| Paths.JoinPath | examples/pyaudio_in_wave_out.py:29 | `joinpath` with an absolute argument is that argument; otherwise the argument's components follow the base's |
| Paths.LastDot | examples/capture_nonblocking_pyaudio2pyav.py:66 | the position of the last dot of a name, if any |
| Paths.Suffix | examples/capture_nonblocking_pyaudio2pyav.py:66 | `.suffix` is empty or a dot-led tail of the name with no further dot, and is empty only when the name has no dot except at its first or last position |
| Paths.Stem | examples/capture_nonblocking_pyaudio2pyav.py:66 | `.stem` followed by `.suffix` is the name, and a non-empty name has a non-empty stem |
| Paths.SuffixOfDotted | examples/utils.py:50 | a name "head.tail" with a dot-free tail has suffix ".tail" and stem "head" |
| Paths.WithName | examples/capture_nonblocking_pyaudio2pyav.py:66 | `with_name` fails with ValueError on a nameless path or an empty or rooted name; otherwise it replaces the last component and keeps the parent |
| Paths.WithNameValid | examples/capture_nonblocking_pyaudio2pyav.py:66 | renaming a named path to a valid component succeeds with the same parent and the new name |
| Paths.WithSuffix | examples/capture_nonblocking_pyaudio2pyav.py:66-67 | `with_suffix` succeeds exactly for an empty or dot-led suffix without a slash on a named path, and then puts the suffix in place of the old one |
| Paths.AppendToFileName | examples/pyaudio_in_wave_out.py:23-31 | the result has the argument's type, a string for a string and a path for a path |
| Paths.InsertBeforeFirstDotShape | examples/pyaudio_in_wave_out.py:27-29 | the new name is the part before the first dot, then the suffix, then the rest of the name from the first dot on |
| Paths.AppendToFileNameKeepsParent | examples/pyaudio_in_wave_out.py:23-31 | the result keeps the parent and its name is the old name with the suffix inserted before the first dot |
| Paths.NameParts | examples/utils.py:41-42 | the name parts are stripped, non-empty and dropped when falsy |
| Paths.NamePart | examples/utils.py:41-42 | a value gives a part exactly when it is truthy and its stripped text is non-empty, and the part is that stripped text |
| Paths.NamePartsAppend | examples/utils.py:41-42 | filtering distributes over concatenation |
| Paths.NamePartsDropsFalsy | examples/utils.py:41 | a falsy value contributes nothing |
| Paths.NamePartsKeepsClean | examples/utils.py:41-42 | a non-empty string with no outer white space is kept unchanged |
| Paths.GetExt | examples/utils.py:45-46 | the extension becomes ".out.<ext>" |
| Paths.OutputPathShape | examples/utils.py:48-50 | the intended file is the name followed by ".out.<ext>" in the output directory; as written the name's own suffix is replaced instead, and the two agree exactly when the name has no suffix |
| Paths.GetOutputFilePathLosesDottedPart | examples/utils.py:39-50 | as written, script "rec.py" with the part "take.2" gives "rec---take.out.mp4", while the appending version keeps "rec---take.2.out.mp4" |
| Paths.GetNameByStem | examples/utils.py:39-43 | the name is the script's stem and the parts, filtered and joined with "---" |
| Paths.GetName | examples/utils.py:39-43 | when the script's stem has no outer white space, the name is that stem and the filtered parts joined with "---" |
| Paths.GetOutputFilePath | examples/utils.py:30-54 | a slash in the extension fails; otherwise, for a valid directory and name, the file is the name's stem followed by ".out.<ext>" in that directory, as written with `with_suffix` |
| Paths.GetOutputFilePathAppending | examples/utils.py:30-54 | the intended version: for a valid directory and name, the file is the whole name followed by ".out.<ext>" in that directory |
| Paths.DistinctFiles | examples/utils.py:50 | when the name has a suffix, the as-written and the intended file name differ |
| Strings.Split | examples/pyaudio_in_wave_out.py:27 | `str.split` gives at least one run, none containing the separator |
| Strings.JoinSplit | examples/pyaudio_in_wave_out.py:27-29 | joining the runs of a split with the separator gives the text back |
| Strings.SplitJoin | examples/pyaudio_in_wave_out.py:27-29 | splitting a join of separator-free runs gives the runs back |
| Strings.SplitHead | examples/pyaudio_in_wave_out.py:27 | the first run is what precedes the first separator, and the rest re-joined is what follows it |
| Strings.LessTransitive | examples/utils.py:9 | the ordering `sorted` uses is transitive |
| Strings.LessTotal | examples/utils.py:9 | two different strings are ordered one way or the other |
| Strings.LessIrreflexive | examples/utils.py:9 | no string precedes itself |
| Strings.Least | pupil_audio/utils/pyaudio.py:194 | the least of a non-empty set of names belongs to it and precedes every other member |
| Strings.SortedStrings | pupil_audio/utils/pyaudio.py:194 | `sorted` of a set of names lists each exactly once in strictly increasing order |
| Strings.TrimLeft | examples/utils.py:41 | what is removed on the left is white space and what remains does not start with white space |
| Strings.TrimRight | examples/utils.py:41 | what is removed on the right is white space and what remains does not end with white space |
| Strings.StripFixed | examples/utils.py:41 | `strip` is idempotent and leaves a text unchanged exactly when it has no outer white space |
| Strings.StripContents | examples/utils.py:41-42 | the stripped text takes its characters from the original and is empty exactly when the original is all white space |
| Strings.IntToString | examples/utils.py:41 | `str` of an int: "-" followed by the decimal digits of its magnitude for a negative number, and those digits alone otherwise |
| Strings.NatToString | examples/utils.py:41 | the decimal text of a natural number: non-empty, digits only, no leading zero, and its value is the number |
| Strings.IntToStringInjective | examples/utils.py:41 | different ints have different texts |
| Example.New | examples/pyaudio_in_pyav_out_api.py:134-143 | construction succeeds exactly for a supported dtype (int16 when omitted), with AssertionError otherwise, and keeps the rate, channels and queues, an omitted queue being the shared default object |
| Example.QueuesAlias | examples/pyaudio_in_pyav_out_api.py:161-164 | `out_queue` is the in-queue, never a different given out-queue, and all transcoders built on the default queue share it |
| Example.OutQueue | examples/pyaudio_in_pyav_out_api.py:161-164 | the out-queue property is the in-queue, so a different out-queue given at construction is never returned |
| Example.AsPackage | examples/pyaudio_in_pyav_out_api.py:186-241 | the example's transcoder has the package transcoder's rate, channels and dtype, so the same format tables apply |
| Example.Transcode | examples/pyaudio_in_pyav_out_api.py:243-280 | zero channels divide by zero and a length not a multiple of the channels fails the assertion; otherwise, when format and layout exist, the frame holds the buffer de-interleaved, a rate but no pts or time base, and the timestamp is passed on |
| Example.TranscodeMatchesPackage | examples/pyaudio_in_pyav_out_api.py:243-280 | wherever the package transcoder succeeds the example's gives the same frame without pts and time base; where the example's succeeds, the package's does exactly when the rate is not zero |
| Example.Step | examples/pyaudio_in_pyav_out_api.py:355-361 | as the sink's step the example transcoder succeeds exactly when `transcode` does, yields its frame and keeps no state |
| Example.StepFrames | examples/pyaudio_in_pyav_out_api.py:349-361 | once the example's sink loop is running, item k of the queue becomes frame k, and the transcoder is unchanged |
| Example.Record | examples/pyaudio_in_pyav_out_api.py:336-342 | the example's record thread dies with ZeroDivisionError at frame rate 0 before taking any item (the stream time base `Fraction(1, rate)`); otherwise it runs the package loop with the example transcoder on a freshly opened container |
| Example.RecordFrames | examples/pyaudio_in_pyav_out_api.py:336-361 | at rate 0 the file receives nothing; otherwise, when every buffer transcodes, input k of the file is buffer k's frame with pts cleared, followed by exactly one flush, and the file is closed |
| Example.NewCapture | examples/pyaudio_in_pyav_out_api.py:404-423 | the capture's transcoder uses int16 and the default queues, the source gets paInt16, the sink "s16p", and source and sink share one queue object |

## Left out

- PyAudio and PyAV calls (opening sessions and streams, `av.open`, `add_stream`, the encoder, the muxer, plane updates) are foreign code. The encoder is a parameter, the container is a log of what it was handed, and a session is a fresh number.
- Threads, `threading.Event`, `join` and the `RLock` inside `PyAudioManager` are modelled sequentially. The lock is a hold count. Interleavings of the callback thread and the record thread are not modelled. One consequence: `stop` stops the sink before the source (pupil_audio/nonblocking/pyaudio2pyav.py:60-62), so a buffer a callback delivers after the sink has drained and before `source.stop()` stays queued and is never written; `Capture.RecordsEveryBuffer` covers only the buffers delivered before `stop`. `pupil_audio/blocking/control.py` is a thread loop and is not part of this model.
- Floating-point values (device timestamps, latencies, `time.monotonic()`, the frame rate as a float) are opaque integers, and clock readings are parameters. The float pts arithmetic of the example sink (examples/pyaudio_in_pyav_out_api.py:367-373) is left out because the frame's pts is cleared before encoding anyway. Float32 sample values are integers like the others.
- `np.fromstring`/`tostring` and endianness are left out. A buffer is its sample sequence, and its byte length is the sample count times the dtype's item size or the PortAudio sample width.
- PyAVCodec.Encode: its precondition leaves out arrays of more than two dimensions, which numpy would flatten like any other. The codec is only ever given (frames, channels) arrays.
- The WAV streams (`pupil_audio/wave.py`, `pupil_audio/blocking/wave.py`), `pupil_audio/base.py`, `setup.py` and the package re-exports are file I/O or packaging. They are not part of this model.
- The printing, enumeration-dump and prompt scripts are interactive I/O: the `main` functions, `monitor_devices.py`, the `enumerate_*` scripts and `get_user_selected_input_name`.
- Components that are not implemented in these files are not modelled: a heartbeat watchdog, a device monitor, a hot-plug source and a segmenting sink.
- The annotation at pupil_audio/nonblocking/pyaudio2pyav.py:139 names `pyaudio_utils`, which is never imported, so loading that module fails. The model gives the body of `transcode` and leaves this import-time failure out.
- Directory creation in `get_output_file_path` (examples/utils.py:52) is file-system work. The output directory, which the code derives from the module's own location, is a parameter.
- Example.Record: the stream time base `1/rate` that the example sink sets (examples/pyaudio_in_pyav_out_api.py:339) is not kept in the container model, which has no time base; only its ZeroDivisionError at rate 0 is modelled. Packet timing is the foreign encoder's.
- Paths.Parse: `PurePosixPath` keeps exactly two leading slashes as a distinct root ("//tmp/x" prints as "//tmp/x"), while the model merges them into "/". The side-file and output paths derived from such a user-given path differ from the source's in that prefix only; on Linux "//" resolves to "/", so the files are the same.
- Manager.Release: the ValueError message is abbreviated; the model keeps only the exception kind and a short text.
- The channel layout is looked up when a frame is built, so an unsupported channel count fails in `transcode` and not at construction. The model follows the code here.
- `AudioCapture.start`/`stop` in examples/pyaudio_in_pyav_out_api.py:425-433 start and stop a sink and a source in the package capture's order (`Capture.Start`, `Capture.Stop`). The example's source differs from the package source in its callback and in creating and terminating its own PyAudio session instead of borrowing one from `PyAudioManager`; those two differences are `Source.ExampleCallback`, `Source.ExampleStart` and `Source.ExampleStop`. The capture's start/stop sequence is not modelled a second time.
- Capture.FromDevice: it builds the transcoder with the corrected constructor `Transcoder.New`, so a requested float32 capture gets a float32 transcoder. The constructor as written (line 68) always yields int16; that capture is `Capture.FromDeviceAsWritten`.
- Capture.New: it builds on `Capture.FromDevice`, the corrected half. The lookup and error order are as written.
- The `transcoder_cls` argument of `PyAudio2PyAVCapture` (pupil_audio/nonblocking/pyaudio2pyav.py:30-31) is not modelled: the capture always uses the package transcoder, which is what the default gives. The `issubclass` assertion and subclasses with other behaviour are left out.
- DebugStore.New: it derives the side files by the corrected rule `DebugStore.Derived`. The store as written is `DebugStore.NewAsWritten`, with the paths of `DebugStore.DerivedAsWritten`.
- DebugStore.NewTranscoder: it builds its base with the corrected `Transcoder.New` and its store with the corrected `DebugStore.New`. The as-written halves are `Transcoder.NewAsWritten` and `DebugStore.NewAsWritten`.
- PyAudioCodec.Encode: samples are integers, so `astype` to float32 keeps the value, and the rounding of large integers to float32 and the truncation of floats cast to an integer dtype are not modelled. The integer casts wrap modulo 2^bits as numpy's do.

## Findings

| source | as written | input that shows it | evidently intended | confidence | as-written member | corrected member |
|---|---|---|---|---|---|---|
| pupil_audio/nonblocking/pyaudio2pyav.py:68 | `dtype = dtype or np.dtype("int16")`. A numpy dtype without fields has length 0, so every plain dtype is falsy and is replaced by int16 | `dtype=np.dtype("float32")` builds an int16 transcoder, and the unsupported `np.dtype("int8")` is accepted | use the given dtype when one is given, and check it against the tables | medium, not executed | Transcoder.NewAsWritten (shown by Transcoder.NewAsWrittenIgnoresDtype) | Transcoder.New |
| examples/capture_nonblocking_pyaudio2pyav.py:71-73 | `is_opened` is true when either handle is None, so `write` does not open an unopened store. The capture never calls the transcoder's `start`, so the first `write` uses a None file | the first buffer of a debug capture raises AttributeError | `is_opened` true when both handles exist, so the first write opens the store | high, not executed | DebugStore.WriteAsWritten (shown by DebugStore.FirstBufferFails) | DebugStore.Write |
| examples/capture_nonblocking_pyaudio2pyav.py:66-67 | `with_name(stem + tag).with_suffix(ext)`. When the stem has a dot, the tag lands in the suffix, and `with_suffix` replaces it | output "x.out.mp4" gives "x.dat" and "x.npy" | "x.out_raw_buffer.dat" and "x.out_timestamps.npy" | high, not executed | DebugStore.DerivedAsWritten (shown by DebugStore.DerivedAsWrittenLosesTag) | DebugStore.Derived |
| examples/utils.py:45-50 | `with_suffix(".out." + ext)` replaces the joined name's last dot-suffix | script "rec.py" with part "take.2" gives "rec---take.out.mp4" | "rec---take.2.out.mp4" | medium, not executed | Paths.GetOutputFilePath (shown by Paths.GetOutputFilePathLosesDottedPart) | Paths.GetOutputFilePathAppending (proved by Paths.OutputPathShape) |

The capture's `stop` (pupil_audio/nonblocking/pyaudio2pyav.py:60-62) stops the sink and the source but never calls the transcoder's `stop`. A debug transcoder's store is therefore never closed, and its timestamps `.npy` file is never saved. `DebugStore.Stop` models the call that would save it, and no modelled capture operation makes that call.
