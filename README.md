# opengl-volume core, modelled in Dafny

This project models the checkable core of the OpenGL volume renderer
`opengl-volume` and proves properties of it. The core covers:

- **Volume file codecs and converters.**
  - The `ValueType` tag table.
  - The `.frame` format: a type byte, three 16-bit dimensions, then the
    samples. `VolumeConvert` writes it. `FrameLoader::load`/`loadRaw` read
    it, and so does the older `loadFrameFromFile`.
  - The slice-stacking tools `VolumeRead` and `VolumeImgRead`.
  - The raw-file dialog's detection of dimensions and type from a file name.
- **The Gaussian cube reader** (`cube::readCubeFile`) at the level of
  whitespace-separated words, and its re-indexing into a frame
  (`cube::cubeToframe`, `cube::loadCube`).
- **The volume grid container** `Frame3D<T>`: a class whose storage array
  has width*height*depth cells.
- **Transfer-function tables.**
  - The opacity-table sampler `makeOpacityPalette`.
  - The fixed colour palettes.
  - The main window's preset opacity tables.
- **The renderers.**
  - The `Renderer` fields and their setters.
  - The gate and the ordered bind/uniform/release sequence of `render`.
  - The stage order of shader loading.
  - The `doInit` GL state of both subclasses.
  - The step arithmetic, and the slab loop of the slice renderer.
  - GL calls are events appended to a trace (`GlTrace.GlContext`). The GL
    state is obtained by replaying that trace.
- **Mesh index generation**: hemisphere, cube and plane.
- **The procedural field generators**: implicit and analytical surfaces,
  sector, sphere, bubbles and random, plus `lerp`, `hounsfield` and
  `histogramm`.
- **The main window's own logic**: loader choice, window title, start-up
  configuration, palette menus and the cutoff dialog.

How the source is represented:

- **Streams.** A file stream is an `InputStream` class with a sticky fail
  flag. The file system is a `FileSystem` class holding a map from names to
  bytes, and the set of names that can be opened for writing.
- **Errors.** Exceptions become `Result` values. A tool's `main` returns an
  `Exit` that is either a status or `Aborted`, the latter for an exception
  nothing catches.
- **Bytes and numbers.** Bytes are integers in [0, 256). Host byte order is
  little-endian. `float` values are `real`s.
- **Square roots and randomness** enter as parameters with the properties
  the code relies on:
  - `s` with `s > 0 && s*s == 3`;
  - a norm `IsNorm`;
  - a distance `IsDistance`;
  - the sequence of random draws.

## Model

| member | source | states |
|---|---|---|
| ValueTypes.AllTypes | src/common/types.h:3-11 | the enum has exactly seven enumerators |
| ValueTypes.TagsConsecutive | src/common/types.h:3-11 | the tags are 0..6 in declaration order, each fits a byte, and distinct types have distinct tags |
| ValueTypes.FromTag | src/common/types.h:3-11 | a byte names a type iff it is in 0..6, and then the type with that tag |
| ValueTypes.TagRoundTrip | src/common/types.h:3-11 | reading back a type's tag gives the type |
| ValueTypes.SelectIsOneToOne | src/common/types.h:13-50 | the specialisations select pairwise different element types, one per tag |
| ValueTypes.SelectByTag | src/common/types.h:13-50 | a raw byte has an element type iff it is 0..6 (the primary template is empty) |
| ValueTypes.ElemSize | src/common/types.h:17-50 | every element type is 1, 2 or 4 bytes wide |
| ValueTypes.ElemSizeOf | src/common/types.h:17-50 | widths by tag are 1,1,2,2,4,4,4 |
| ValueTypes.Modulus | src/common/types.h:17-50 | an element type ranges over 256^size values |
| ValueTypes.DecodeElem | src/VRApp/frame_loader.cpp:17-20 | reinterpreted bytes give a float sample iff the type is float |
| ValueTypes.DecodeElemRepresentable | src/VRApp/frame_loader.cpp:17-20 | every element read back is representable in its type: unsigned values in [0, 2^bits), signed ones in [-2^(bits-1), 2^(bits-1)), floats four bytes |
| ValueTypes.DecodeSamples | src/VRApp/frame_loader.cpp:17-20 | n elements are read from n*size bytes |
| ValueTypes.DecodeSamplesAt | src/VRApp/frame_loader.cpp:17-20 | element i comes from bytes [i*size, (i+1)*size), in file order |
| ValueTypes.EncodeSamples | src/VolumeConvert/main.cpp:74-78 | writing n samples gives n*size bytes |
| ValueTypes.DecodeEncodeElem | src/VolumeConvert/main.cpp:74-78 | one element read back after writing is unchanged |
| ValueTypes.DecodeEncodeSamples | src/VolumeConvert/main.cpp:74-78 | a payload read back after writing gives the same samples, for every type |
| ValueTypes.DecodeIntAsUInt | src/VRApp/frame_loader.cpp:72-73 | an `int` written and read back as `unsigned int` is its value modulo 2^32 |
| ValueTypes.DecodeIntSamplesAsUInt | src/VRApp/frame_loader.cpp:72-73 | a payload of `int` samples read with the unsigned 32-bit reader gives each sample modulo 2^32, in order |
| Common.Zeros | src/VRApp/frame_loader.cpp:17 | a value-initialised buffer of n bytes is n zeros |
| Common.Overlay | src/VolumeRead/main.cpp:29 | a read into a buffer overwrites its first min(buffer, remaining) bytes and keeps the rest |
| Common.EncodeLE | src/VolumeConvert/main.cpp:71-77 | a value written in host order takes exactly `width` bytes |
| Common.DecodeEncodeLE | src/VolumeConvert/main.cpp:71-73 | writing a narrowed value and reading it back gives the value modulo 256^width |
| Common.EncodeLEExact | src/VRApp/frame_loader.cpp:44-46 | a value that fits survives writing and reading unchanged |
| Common.EncodeDecodeLE | src/VRApp/frame_loader.cpp:40-46 | bytes read as a number and written back are the same bytes |
| Common.DecodeLEBound | src/VRApp/frame_loader.cpp:40 | an unsigned value read from k bytes is below 256^k |
| Common.Signed | src/common/types.h:17-40 | the two's-complement reading lies in the signed range and is congruent to the unsigned value |
| Common.DecimalString | src/VolumeRead/main.cpp:27 | `std::to_string` of a natural number is a non-empty string of digits |
| Common.DecimalRoundTrip | src/VolumeRead/main.cpp:27 | the digits read back as the number |
| Common.ToLower | src/VRApp/raw_dialog.cpp:69 | lower-casing keeps the length and maps each character on its own |
| Common.Stoi | src/VolumeConvert/main.cpp:52-54 | `std::stoi` succeeds only with a value in the `int` range |
| Common.StoiDecimal | src/VolumeConvert/main.cpp:52-54 | the decimal text of every non-negative `int` parses back, also when followed by a non-digit |
| Common.StoiRejectsNonNumeric | src/VolumeConvert/main.cpp:52-54 | text with no digit after the sign throws |
| Grid.Index | src/VRApp/cube/cube_util.cpp:13 | the position of an in-range cell lies inside the storage |
| Grid.IndexCoords | src/VRApp/cube/cube_util.cpp:13 | the position of cell (x, y, z) decodes back to (x, y, z) |
| Grid.CoordsIndex | src/VRApp/cube/cube_util.cpp:13 | every storage position belongs to exactly one in-range cell |
| Grid.IndexInjective | src/VRApp/cube/cube_util.cpp:13 | two cells share a position iff they are the same cell |
| Grid.Frame3D.constructor | src/VRApp/frame3d.h:8-12 | the storage has width*height*depth value-initialised cells and the dimensions are as given |
| Grid.Frame3D.Slice | src/VRApp/frame3d.h:8 | with depth defaulted, the frame is one width*height slice |
| Grid.Frame3D.Size | src/VRApp/frame3d.h:24-26 | `size()` is the storage length |
| Grid.Frame3D.Data | src/VRApp/frame3d.h:16-22 | `data()` is the frame's one storage, of `size()` cells |
| Grid.Frame3D.Value | src/VRApp/frame3d.h:28-30 | the frame's value has its dimensions and its storage contents |
| Grid.Frame3D.SetAt | src/VRApp/cube/cube_util.cpp:20 | `at(x, y, z) = v` changes that cell and no other |
| Grid.Frame3D.Fill | src/VRApp/frame_loader.cpp:27 | `fill(begin, end)` stores the values in order |
| Grid.Frame3D.FillWith | src/VRApp/frame_util.cpp:67-69 | `fill(f)` gives every cell (x, y, z) the value f(x, y, z) |
| Streams.InputStream.constructor | src/VRApp/frame_loader.cpp:35 | an opened file stream is at the start of the file with no error |
| Streams.InputStream.Read | src/VRApp/frame_loader.cpp:43-46 | a read delivers up to n bytes, sets the fail state when fewer remain, and a failed stream delivers nothing |
| Streams.InputStream.ReadInto | src/VolumeRead/main.cpp:29 | a read into an existing buffer overwrites only the bytes delivered |
| Streams.FileSystem.Open | src/VRApp/frame_loader.cpp:35-38 | a file can be opened iff it exists, and then gives its bytes |
| Streams.FileSystem.Write | src/VolumeConvert/main.cpp:68-79 | writing a file that can be opened replaces its contents and nothing else; writing one that cannot be opened changes nothing |
| FrameLoader.DecodeHeader | src/VRApp/frame_loader.cpp:39-46 | the header is the tag byte, then width, height, depth as unsigned 16-bit values |
| FrameLoader.HeaderFields | src/VRApp/frame_loader.cpp:43-46 | the four reads take 1, 2, 2 and 2 bytes in that order |
| FrameLoader.LoaderElem | src/VRApp/frame_loader.cpp:63-77 | each tag uses its own element type, except int32, which uses the unsigned 32-bit reader |
| FrameLoader.ReadFrame | src/VRApp/frame_loader.cpp:9-30 | `readFrame` fails on a zero size or a short payload, otherwise fills a fresh frame with the decoded payload |
| FrameLoader.LoadBinary | src/VRApp/frame_loader.cpp:62-81 | the switch fails with the tag for an unknown tag and otherwise reads with that tag's element type |
| FrameLoader.Load | src/VRApp/frame_loader.cpp:34-52 | `load` opens the file, reads the header and dispatches |
| FrameLoader.LoadRaw | src/VRApp/frame_loader.cpp:54-60 | `loadRaw` opens the file and dispatches with the caller's dimensions and type |
| FrameLoader.ShortHeaderFails | src/VRApp/frame_loader.cpp:41-50 | a file shorter than 7 bytes fails with "Failed to read data" |
| FrameLoader.UnknownTagFails | src/VRApp/frame_loader.cpp:78-80 | a tag byte of 7 or more fails with "Unknown data type", whatever follows |
| FrameLoader.ZeroSizeFails | src/VRApp/frame_loader.cpp:11-16 | a zero-sized volume fails with "Bad data size" and its dimensions |
| FrameLoader.TruncatedPayloadFails | src/VRApp/frame_loader.cpp:17-24 | a payload shorter than w*h*d elements fails with "Failed to read data" |
| FrameLoader.LoadSucceedsIff | src/VRApp/frame_loader.cpp:9-52 | loading succeeds iff header, tag, size and payload are all good, and then the frame has the header's dimensions and the first w*h*d elements in file order |
| FrameLoader.TrailingBytesIgnored | src/VRApp/frame_loader.cpp:20 | bytes after the w*h*d elements never change the result |
| FrameLoader.Int32ReadAsUnsigned | src/VRApp/frame_loader.cpp:72-75 | tag 4 is read exactly as tag 5, so int32 samples come back in [0, 2^32) |
| FrameLoader.LoadRawIsLoadWithoutHeader | src/VRApp/frame_loader.cpp:54-60 | `loadRaw` runs the same checks and decoding on the whole file |
| FileUtil.LegacyHeader | src/VRApp/file_util.cpp:24-29 | the header fields hold the file's first seven bytes, or their prior contents where the file ends |
| FileUtil.LegacyHeaderParts | src/VRApp/file_util.cpp:26-29 | the four unchecked reads fill type, width, height and depth in that order |
| FileUtil.ReadField | src/VRApp/file_util.cpp:26-29 | an unchecked read overwrites only the bytes delivered, and nothing once the stream has failed |
| FileUtil.LegacyReadFrame | src/VRApp/file_util.cpp:6-16 | the older `readFrame` decodes a zero-filled buffer overwritten by whatever the stream still delivers |
| FileUtil.LegacyLoad | src/VRApp/file_util.cpp:18-45 | `loadFrameFromFile` fails only on an unopenable file or an unsupported tag |
| FileUtil.LegacyTagsIff | src/VRApp/file_util.cpp:33-44 | only tags 0..3 are read; 4 and above fail with "Unknown value type" and the tag |
| FileUtil.LegacyAgreesOnGoodFiles | src/VRApp/file_util.cpp:18-45 | on a well-formed file of one of the four shared types, the older loader gives the newer loader's frame |
| FileUtil.LegacyAcceptsEmptyVolume | src/VRApp/file_util.cpp:7-15 | a zero-sized volume gives an empty frame, where the newer loader fails |
| FileUtil.LegacyZeroFillsTruncation | src/VRApp/file_util.cpp:9-10 | a sample wholly past the end of a truncated file reads as 0 |
| VolumeConvert.TypeNames | src/VolumeConvert/main.cpp:26-34 | there are seven type names, one per tag |
| VolumeConvert.GetTypeIff | src/VolumeConvert/main.cpp:25-41 | a name is accepted iff it is one of the seven, it selects the type of that name, and any other name is reported |
| VolumeConvert.GetTypeRoundTrip | src/VolumeConvert/main.cpp:25-41 | every type's name selects that type |
| VolumeConvert.GetFileSize | src/VolumeConvert/main.cpp:16-23 | the size is the file's length, and an unopenable file throws |
| VolumeConvert.FrameFile | src/VolumeConvert/main.cpp:70-78 | the output is the 7-byte header followed by the input unchanged |
| VolumeConvert.Run | src/VolumeConvert/main.cpp:43-89 | `main` returns 0 iff arguments, input and type name are good, and then writes the frame file; a usage error, a bad number or a missing input writes nothing; an unknown type name leaves an empty output; an output that cannot be opened is never written, and the exit code still follows the other checks |
| VolumeConvert.FrameFileHeader | src/VolumeConvert/main.cpp:71-77 | the header written reads back as the tag and each dimension modulo 2^16 |
| VolumeConvert.ConvertThenLoad | src/VolumeConvert/main.cpp:74-78 | loading a converted file reads the input as the payload of the declared type and narrowed dimensions |
| VolumeConvert.ConvertRoundTrip | src/VolumeConvert/main.cpp:74-78 | for dimensions in 1..65535 and any type but int32, converting encoded samples and loading them gives the same grid |
| VolumeConvert.ConvertInt32RoundTrip | src/VRApp/frame_loader.cpp:72-73 | for dimensions in 1..65535, int32 samples converted and loaded come back modulo 2^32, so a negative value v returns as v + 2^32 |
| VolumeConvert.ReadInt32Frame | src/VRApp/frame_loader.cpp:72-73 | `readFrame` with the unsigned 32-bit reader on encoded int32 samples gives each sample modulo 2^32 |
| VolumeConvert.ReadEncodedFrame | src/VRApp/frame_loader.cpp:17-27 | `readFrame` on encoded samples gives back the samples |
| VolumeRead.SwapPairs | src/VolumeRead/main.cpp:33-37 | exchanging byte pairs keeps the length |
| VolumeRead.SwapPairsAt | src/VolumeRead/main.cpp:35 | byte 2n receives byte 2n+1 and byte 2n+1 receives byte 2n |
| VolumeRead.SwapPairsInvolution | src/VolumeRead/main.cpp:33-37 | swapping twice restores the block |
| VolumeRead.SwapBytePairs | src/VolumeRead/main.cpp:33-37 | the in-place swap loop leaves the swapped block |
| VolumeRead.NextBlock | src/VolumeRead/main.cpp:27-37 | reading one slice keeps the block's length |
| VolumeRead.BlockAfter | src/VolumeRead/main.cpp:24-37 | the reused block always holds 2*w*h bytes |
| VolumeRead.SizeHeader | src/VolumeRead/main.cpp:19-21 | the header is three 8-byte `size_t` values, 24 bytes |
| VolumeRead.SizeHeaderRoundTrip | src/VolumeRead/main.cpp:19-21 | the header reads back as width, height and depth |
| VolumeRead.Run | src/VolumeRead/main.cpp:8-47 | unparsable numbers abort before any file is touched; otherwise the exit status is 0, and the output is the header and the slices, swapped when a non-zero seventh argument is given; an output that cannot be opened is never written, and the status is still 0 |
| VolumeRead.JoinSlices | src/VolumeRead/main.cpp:17-44 | the output is the header followed by the block after each slice 1..depth in turn, or nothing changes when the output cannot be opened |
| VolumeRead.SlicesWrittenLength | src/VolumeRead/main.cpp:39 | depth slices add exactly depth*2*w*h bytes |
| VolumeRead.SlicesWrittenPrefix | src/VolumeRead/main.cpp:26-40 | what was written after slice k is a prefix of the final output |
| VolumeRead.SlicesWrittenBlock | src/VolumeRead/main.cpp:39 | the k-th block of the output is the block after slice k |
| VolumeRead.FullSliceBlock | src/VolumeRead/main.cpp:29-37 | a slice file of at least 2*w*h bytes gives its first 2*w*h bytes, swapped when asked |
| VolumeRead.MissingSliceRepeats | src/VolumeRead/main.cpp:24-37 | a missing slice repeats the previous block, which swapping turns back into the previous file's original bytes |
| VolumeImgRead.RightJustified | src/VolumeImgRead/main.cpp:26 | `rightJustified` pads on the left with the fill character and never truncates |
| VolumeImgRead.FrameNumberValue | src/VolumeImgRead/main.cpp:26 | the slice number has at least three digits and still denotes z |
| VolumeImgRead.DecimalValueLeadingZeros | src/VolumeImgRead/main.cpp:26 | leading zeros do not change a decimal value |
| VolumeImgRead.FrameNumberDigits | src/VolumeImgRead/main.cpp:26 | a slice number holds no '@' |
| VolumeImgRead.ReplaceAtIdentity | src/VolumeImgRead/main.cpp:27 | a path without '@' is left unchanged by `replace` |
| VolumeImgRead.ReplaceAtRemoves | src/VolumeImgRead/main.cpp:27 | after `replace` with a number no '@' is left |
| VolumeImgRead.ReplaceAtLength | src/VolumeImgRead/main.cpp:27 | each '@' is replaced and every other character kept |
| VolumeImgRead.PathAtIsFirst | src/VolumeImgRead/main.cpp:27 | every slice after the first reads the first slice's file name |
| VolumeImgRead.ImagesWrittenRepeatFirst | src/VolumeImgRead/main.cpp:25-32 | the output repeats the first slice's image depth times |
| VolumeImgRead.Run | src/VolumeImgRead/main.cpp:12-39 | unparsable numbers abort before any file is touched; otherwise the exit status is 0, and the output is the header and the images in order z = 1..depth; an output that cannot be opened is never written, and the status is still 0 |
| VolumeImgRead.StackImages | src/VolumeImgRead/main.cpp:19-35 | the output is the header followed by each slice's image in turn, or nothing changes when the output cannot be opened |
| VolumeImgRead.IntendedPathsDistinct | src/VolumeImgRead/main.cpp:27 | with each slice numbered from the original path, different slices read different files |
| RawDialog.TypeItems | src/VRApp/raw_dialog.cpp:15-23 | the type list has seven entries |
| RawDialog.TypeItemsInTagOrder | src/VRApp/raw_dialog.cpp:15-23 | entry i is the type with tag i, listed under the name the converter accepts for it |
| RawDialog.Dialog.constructor | src/VRApp/raw_dialog.cpp:8-33 | the dialog starts with entry 0 selected and no file name |
| RawDialog.Dialog.GetValueType | src/VRApp/raw_dialog.cpp:56-58 | the type returned is the one whose tag is the selected index |
| RawDialog.Dialog.SetFilename | src/VRApp/raw_dialog.cpp:30-32 | editing the file name runs detection on it |
| RawDialog.Dialog.DetectParamsFromFilename | src/VRApp/raw_dialog.cpp:68-84 | the dimensions come from the pattern when it matches, and the type from the first listed name that occurs; anything not found keeps its value |
| RawDialog.BaseName | src/VRApp/raw_dialog.cpp:69 | the file-name component holds no '/' and is no longer than the path |
| RawDialog.BaseNameIsLastComponent | src/VRApp/raw_dialog.cpp:69 | the file-name component ends the path and follows its last '/' (or is the whole path) |
| RawDialog.DetectionKeyShape | src/VRApp/raw_dialog.cpp:69 | detection looks only at the file-name component, lower-cased character by character; the key holds no '/' |
| RawDialog.IndexOf | src/VRApp/raw_dialog.cpp:79 | `indexOf` is the first occurrence, or -1 iff there is none |
| RawDialog.NextRun | src/VRApp/raw_dialog.cpp:70 | `\D*(\d+)` captures the first maximal digit run, and fails only when no digit follows |
| RawDialog.NextRunUnique | src/VRApp/raw_dialog.cpp:70 | that capture is the only one possible |
| RawDialog.MatchDims | src/VRApp/raw_dialog.cpp:70-72 | a match gives three maximal digit runs separated by non-digits |
| RawDialog.MatchDimsComplete | src/VRApp/raw_dialog.cpp:70-72 | whenever such runs exist the pattern finds them, so with fewer than three runs it does not match |
| RawDialog.ToInt | src/VRApp/raw_dialog.cpp:73-75 | `toInt` of digits is a non-negative `int` |
| RawDialog.ToIntDecimal | src/VRApp/raw_dialog.cpp:73-75 | the digits of an `int` give it back, and digits beyond the range give 0 |
| RawDialog.FirstTypeFromIsFirst | src/VRApp/raw_dialog.cpp:77-83 | the scan selects the first listed name that occurs, and nothing when none does |
| RawDialog.UnsignedNameContainsSigned | src/VRApp/raw_dialog.cpp:16-21 | "uint8", "uint16" and "uint32" contain the signed name listed before them |
| RawDialog.UnsignedNeverDetected | src/VRApp/raw_dialog.cpp:77-83 | detection never selects an unsigned type |
| RawDialog.UnsignedNameDetectedAsSigned | src/VRApp/raw_dialog.cpp:77-83 | the names "uint8", "uint16" and "uint32" themselves are detected as int8, int16 and int32 |
| RawDialog.UnsignedKeyDetectedAsSigned | src/VRApp/raw_dialog.cpp:77-83 | a key holding "uint8", "uint16" or "uint32", and none of the names listed before the signed name it contains, is detected as int8, int16 or int32 |
| RawDialog.IntendedOrder | src/VRApp/raw_dialog.cpp:77-83 | the corrected scan order is a permutation of the seven entries |
| RawDialog.IntendedTypeFromIsFirst | src/VRApp/raw_dialog.cpp:77-83 | the corrected scan selects the first name in its order that occurs |
| RawDialog.IntendedTypeFindsSame | src/VRApp/raw_dialog.cpp:77-83 | the corrected scan finds a type exactly when the written one does |
| RawDialog.IntendedTypeOfOwnName | src/VRApp/raw_dialog.cpp:77-83 | with the corrected order every type's own name, unsigned ones included, is detected as that type |
| CubeData.DefaultAtom | src/VRApp/cube/cube_data.h:14-19 | an atom defaults to element 0, value 0 and zero coordinates |
| CubeData.DefaultCube | src/VRApp/cube/cube_data.h:21-32 | a cube defaults to Ångström, two empty titles, zero dimensions, origin and axes, periodic borders and no atoms or data |
| CubeData.Scale | src/VRApp/cube/cube_data.cpp:43-50 | scaling multiplies each of the three components |
| CubeData.ExtractInt | src/VRApp/cube/cube_data.cpp:33 | `>>` into an `int` succeeds iff the next word is an in-range integer, and then stores it and moves one word on |
| CubeData.ExtractSize | src/VRApp/cube/cube_data.cpp:40 | `>>` into a `size_t` stores an integer modulo 2^64 and fails beyond that range |
| CubeData.ExtractReal | src/VRApp/cube/cube_data.cpp:96 | `>>` into a `double` succeeds iff the next word is numeric, and a failed read leaves 0 |
| CubeData.ExtractVector | src/VRApp/cube/cube_data.cpp:12-14 | a vector reads three words or fails |
| CubeData.ExtractAxes | src/VRApp/cube/cube_data.cpp:39-41 | each axis reads a dimension and a vector, four words |
| CubeData.ExtractAtom | src/VRApp/cube/cube_data.cpp:73-75 | an atom record reads five words |
| CubeData.ExtractAtoms | src/VRApp/cube/cube_data.cpp:71-87 | n atom records are read |
| CubeData.ExtractReals | src/VRApp/cube/cube_data.cpp:89-97 | n values are read |
| CubeData.ExtractHeader | src/VRApp/cube/cube_data.cpp:38-41 | the header reads origin and three axes, fifteen words |
| CubeData.RawHeader | src/VRApp/cube/cube_data.cpp:38-41 | the header as it stands in the file has three dimensions and three axis vectors |
| CubeData.RawAtoms | src/VRApp/cube/cube_data.cpp:71-75 | there are as many raw atom records as the atom count's magnitude |
| CubeData.ParseCube | src/VRApp/cube/cube_data.cpp:20-102 | the parsed cube is well formed and holds dim0*dim1*dim2 data values |
| CubeData.TokenStream.constructor | src/VRApp/cube/cube_data.cpp:21 | the stream starts at the first word with no error |
| CubeData.TokenStream.ReadInt | src/VRApp/cube/cube_data.cpp:33 | the method reads an `int` as `ExtractInt` says |
| CubeData.TokenStream.ReadSize | src/VRApp/cube/cube_data.cpp:40 | the method reads a `size_t` as `ExtractSize` says |
| CubeData.TokenStream.ReadReal | src/VRApp/cube/cube_data.cpp:96 | the method reads a `double` as `ExtractReal` says |
| CubeData.TokenStream.ReadVector | src/VRApp/cube/cube_data.cpp:12-14 | `operator>>` reads a vector as `ExtractVector` says |
| CubeData.ReadCubeFile | src/VRApp/cube/cube_data.cpp:20-102 | an unopenable file fails with "Cannot open <name>"; otherwise the result is the parsed cube |
| CubeData.ReadHeader | src/VRApp/cube/cube_data.cpp:38-41 | origin, then each dimension with its axis vector |
| CubeData.HeaderToAngstrom | src/VRApp/cube/cube_data.cpp:43-50 | the origin and all nine axis components are multiplied by 0.529177249 |
| CubeData.ReadAtoms | src/VRApp/cube/cube_data.cpp:71-87 | the atom loop reads n records |
| CubeData.ReadAtom | src/VRApp/cube/cube_data.cpp:73-81 | one record is read, with its coordinates converted when lengths are in Bohr |
| CubeData.ReadValues | src/VRApp/cube/cube_data.cpp:89-97 | the data loop reads n values |
| CubeData.UnitFromAtomCount | src/VRApp/cube/cube_data.cpp:32-36 | lengths are in Ångström iff the atom count is negative, and there are as many atoms as its magnitude |
| CubeData.UnreadableCountGivesEmptyCube | src/VRApp/cube/cube_data.cpp:32-36 | an unreadable count gives a cube in Bohr with no atoms, zero dimensions and no data |
| CubeData.FailedAxesAreZero | src/VRApp/cube/cube_data.cpp:39-41 | on a failed stream every dimension reads as 0 |
| CubeData.TitlesVerbatim | src/VRApp/cube/cube_data.cpp:29-30 | the titles are the first two lines as they stand |
| CubeData.HeaderInAngstrom | src/VRApp/cube/cube_data.cpp:43-50 | in Bohr, origin and axes are scaled by 0.529177249, in Ångström they are kept, and dimensions are never scaled |
| CubeData.AtomsInAngstrom | src/VRApp/cube/cube_data.cpp:77-81 | atom coordinates follow the same rule, while the element number and the unused value are never scaled |
| CubeData.ExtractAtomsConverted | src/VRApp/cube/cube_data.cpp:77-81 | atom i is raw record i with its coordinates converted |
| CubeData.ExtractRealsGood | src/VRApp/cube/cube_data.cpp:95-97 | on a good stream of numeric words the values come in file order |
| CubeData.DataInFileOrder | src/VRApp/cube/cube_data.cpp:89-97 | the data are the dim0*dim1*dim2 words after the atoms, in file order |
| CubeData.DataOffset | src/VRApp/cube/cube_data.cpp:89-97 | the data start after the count, 15 header numbers and five numbers per atom |
| CubeData.TruncatedDataIsZero | src/VRApp/cube/cube_data.cpp:95-97 | values past the end of a truncated file read as 0 |
| CubeData.WriteCubeFile | src/VRApp/cube/cube_data.cpp:104-106 | `writeCubeFile` writes nothing |
| CubeData.FormatVector | src/VRApp/cube/cube_data.cpp:16-18 | `operator<<` writes the three components with nothing between them |
| CubeData.FormatVectorAmbiguous | src/VRApp/cube/cube_data.cpp:16-18 | (1, 23, 4) and (12, 3, 4) print the same text |
| CubeData.FormatVectorSpaced | src/VRApp/cube/cube_data.cpp:16-18 | the corrected format adds one space between components |
| CubeData.FormatVectorSpacedInjective | src/VRApp/cube/cube_data.cpp:16-18 | with separators the text determines the vector |
| CubeUtil.CubeIndexBound | src/VRApp/cube/cube_util.cpp:18-19 | the index of every in-range cell is below dx*dy*dz, as asserted |
| CubeUtil.CubeCoords | src/VRApp/cube/cube_util.cpp:15-22 | every position decodes to j < dy and k < dz |
| CubeUtil.CubeCoordsOfIndex | src/VRApp/cube/cube_util.cpp:15-22 | the index map is one-to-one |
| CubeUtil.CubeIndexOfCoords | src/VRApp/cube/cube_util.cpp:15-22 | the index map reaches every position below dx*dy*dz, so each value is copied exactly once |
| CubeUtil.CubeToFrame | src/VRApp/cube/cube_util.cpp:8-26 | the frame has dimensions (dim0, dim1, dim2) and cell (i, j, k) holds cube value (i, j, k) |
| CubeUtil.LoadCube | src/VRApp/cube/cube_util.cpp:28-31 | `loadCube` fails iff the file cannot be opened, and otherwise re-indexes the parsed cube |
| Palettes.SampleArg | src/VRApp/palette_util.h:17 | every sample argument i/size lies in [0, 1] |
| Palettes.MakeOpacityPalette | src/VRApp/palette_util.h:13-20 | the table has size+1 entries and entry i is f(i/size), unclamped |
| Palettes.SampleArgsIncreasing | src/VRApp/palette_util.h:16-18 | the sample arguments strictly increase from 0 to 1 |
| Palettes.IdentityOpacityPalette | src/VRApp/palette_util.h:17 | with the identity, the table strictly increases from 0 to 1 |
| Palettes.PowFacts | src/VRApp/main_window.cpp:24 | x^n is 0 at 0 for n >= 1, 1 at 1, and monotone on [0, 1] |
| Palettes.PowOpacityPalette | src/VRApp/main_window.cpp:23-25 | 1025 entries (i/1024)^n, nondecreasing, ending at 1 and starting at 0 when n >= 1 |
| Palettes.DefaultOpacityPalette | src/VRApp/main_window.cpp:19-21 | eight nondecreasing entries from 0 to 1 |
| Palettes.NoneOpacityPalette | src/VRApp/main_window.cpp:153-155 | a single fully opaque entry |
| Palettes.RainbowPalette | src/VRApp/palette_util.cpp:3-13 | seven colours from black to red, every component 0 or 1 |
| Palettes.MonochromePalette | src/VRApp/palette_util.cpp:15-20 | black then white |
| Palettes.RainbowVariantsAgree | src/VRApp/util.cpp:100-121 | the older rainbow is the same list |
| Rendering.IdentityMatrix | src/VRApp/render/slice_renderer.cpp:15 | `setToIdentity` gives ones on the diagonal and zeros elsewhere |
| Rendering.Scaled | src/VRApp/render/slice_renderer.cpp:16 | `scale` applies the scaling before the matrix |
| Rendering.Translated | src/VRApp/render/slice_renderer.cpp:17 | `translate` applies the translation before the matrix |
| Rendering.SliceTextureMatrixMapsToCube | src/VRApp/render/slice_renderer.cpp:15-17 | the texture matrix maps t to 2t-1, the unit texture cube onto [-1, 1] |
| Rendering.LoadProgram | src/VRApp/render/renderer.cpp:7-21 | a program is produced iff all three stages succeed |
| Rendering.LoadProgramFirstFailure | src/VRApp/render/renderer.cpp:7-21 | the first failing stage decides the error, and the log ends the message |
| Rendering.DefaultState | src/VRApp/render/renderer.h:64-80 | no textures or program, cutoff (0, 1), multiplier 1, jitter size 64, lighting and jitter off |
| Rendering.MaxDim | src/VRApp/render/slice_renderer.cpp:34 | `max_dim` is the largest of the three texture dimensions |
| Rendering.StepOfIsReciprocal | src/VRApp/render/slice_renderer.cpp:35 | `step` times max_dim*multiplier is one, and the step is positive for a positive multiplier |
| Rendering.TruncTowardZero | src/VRApp/render/slice_renderer.cpp:36 | `static_cast<int>` rounds toward zero |
| Rendering.StepCountFormula | src/VRApp/render/ray_cast_renderer.cpp:36-38 | the step count is trunc(2*sqrt(3)*max_dim*multiplier) |
| Rendering.StepCountIncreasing | src/VRApp/render/slice_renderer.cpp:35-36 | for fixed dimensions the step count strictly increases with the multiplier |
| Rendering.CutoffCoeff | src/VRApp/render/renderer.cpp:32 | the coefficient is 1/(high-low) when the ends differ and 1 when they are equal |
| Rendering.DefaultCutoffCoeff | src/VRApp/render/renderer.cpp:32 | the default window (0, 1) gives 1 |
| Rendering.CutoffUniforms | src/VRApp/render/renderer.cpp:30-33 | three cutoff uniforms are set |
| Rendering.TextureBinds | src/VRApp/render/renderer.cpp:39-49 | nine calls bind the three textures |
| Rendering.RenderPrologue | src/VRApp/render/renderer.cpp:28-49 | 13 calls precede `doRender` |
| Rendering.RenderEpilogue | src/VRApp/render/renderer.cpp:53-57 | 4 releases follow it |
| Rendering.SlabEvents | src/VRApp/render/slice_renderer.cpp:45-50 | each slab iteration issues three calls |
| Rendering.SlabZNext | src/VRApp/render/slice_renderer.cpp:49 | each iteration moves the plane by one step |
| Rendering.Renderer.constructor | src/VRApp/render/renderer.h:64-80 | a fresh renderer holds the default state |
| Rendering.Renderer.EnableLighting | src/VRApp/render/renderer.h:19-21 | only the lighting flag changes |
| Rendering.Renderer.EnableRayCastLighting | src/VRApp/render/ray_cast_renderer.h:14-16 | only the ray caster's own flag changes |
| Rendering.Renderer.EnableJitter | src/VRApp/render/renderer.h:23-25 | only the jitter flag changes |
| Rendering.Renderer.SetDataTexture | src/VRApp/render/renderer.h:27-29 | only the data texture changes |
| Rendering.Renderer.SetColorTexture | src/VRApp/render/renderer.h:31-33 | only the colour texture changes |
| Rendering.Renderer.SetOpacityTexture | src/VRApp/render/renderer.h:35-37 | only the opacity texture changes |
| Rendering.Renderer.SetMVP | src/VRApp/render/renderer.h:39-43 | the three matrices are replaced together and nothing else changes |
| Rendering.Renderer.SetCutoff | src/VRApp/render/renderer.h:45-48 | low and high are stored as given, with no check |
| Rendering.Renderer.SetStepMultiplier | src/VRApp/render/renderer.h:50-52 | the multiplier is stored as given, with no check |
| Rendering.Renderer.DoInit | src/VRApp/render/slice_renderer.cpp:9-23 | a failed shader load reports its error and changes nothing; otherwise the program is stored and the GL state calls follow |
| Rendering.Renderer.Render | src/VRApp/render/renderer.cpp:23-58 | `render` issues exactly the events of `RenderEvents` and changes no field |
| Rendering.Renderer.BindAll | src/VRApp/render/renderer.cpp:28-49 | the method issues the prologue |
| Rendering.Renderer.SetCutoffUniforms | src/VRApp/render/renderer.cpp:30-33 | the method sets the cutoff uniforms |
| Rendering.Renderer.BindTextures | src/VRApp/render/renderer.cpp:39-49 | the method binds the textures |
| Rendering.Renderer.ReleaseAll | src/VRApp/render/renderer.cpp:53-57 | the method issues the releases |
| Rendering.Renderer.DoRenderSlice | src/VRApp/render/slice_renderer.cpp:25-51 | the slice `doRender` issues its uniforms and the slab loop |
| Rendering.Renderer.DrawSlabs | src/VRApp/render/slice_renderer.cpp:45-50 | the loop runs num_of_steps+1 times and moves the plane one step each time |
| Rendering.Renderer.DoRenderRayCast | src/VRApp/render/ray_cast_renderer.cpp:25-44 | the ray-cast `doRender` issues its uniforms and one cube draw |
| Rendering.RenderGate | src/VRApp/render/renderer.cpp:24-26 | without a program or any one of the three textures, `render` issues nothing |
| Rendering.RenderOrder | src/VRApp/render/renderer.cpp:28-57 | bind program, cutoff uniforms, textures on units 0, 1, 2 with samplers 0, 1, 2, `doRender`, three releases, release program; no other program call |
| Rendering.DoRenderPassive | src/VRApp/render/slice_renderer.cpp:25-51 | the subclasses never bind or release the program and change no GL state |
| Rendering.SlabDraws | src/VRApp/render/slice_renderer.cpp:45-50 | k iterations draw the plane at z0, z0+step, … and never the cube |
| Rendering.PrologueEpilogueDrawNothing | src/VRApp/render/renderer.cpp:28-57 | neither end of `render` draws |
| Rendering.RenderDraws | src/VRApp/render/renderer.cpp:51 | the draws of `render` are those of `doRender` |
| Rendering.SliceRenderDraws | src/VRApp/render/slice_renderer.cpp:35-50 | the slice renderer draws num_of_steps+1 planes, the i-th at -view_distance - sqrt(3) + i*step with a positive step, exactly the slab loop's, and no cube |
| Rendering.SlabPlanesAscend | src/VRApp/render/slice_renderer.cpp:45-50 | with a positive step the slab loop's planes strictly ascend, back to front |
| Rendering.SlabZIncreasing | src/VRApp/render/slice_renderer.cpp:49 | with a positive step the plane depth strictly increases |
| Rendering.RayCastRenderDraws | src/VRApp/render/ray_cast_renderer.cpp:34-43 | the ray caster draws the cube exactly once and no plane, and `lightingEnabled` is its own flag |
| Rendering.SliceInitGlState | src/VRApp/render/slice_renderer.cpp:19-22 | after `doInit`: depth test off, culling off, blending (SRC_ALPHA, ONE_MINUS_SRC_ALPHA) |
| Rendering.RayCastInitGlState | src/VRApp/render/ray_cast_renderer.cpp:17-22 | after `doInit`: depth test off, back faces culled, clockwise front faces, same blending |
| Rendering.RenderKeepsGlState | src/VRApp/render/renderer.cpp:23-58 | rendering changes no GL capability or blending state |
| Meshes.RingPoints | src/VRApp/objects/hemisphere.cpp:44-47 | a ring has one vertex per segment, in segment order |
| Meshes.OuterRings | src/VRApp/objects/hemisphere.cpp:41-47 | rings 2..r add segments*(r-1) vertices |
| Meshes.Fan | src/VRApp/objects/hemisphere.cpp:34-38 | the fan has three indices per segment |
| Meshes.RingQuads | src/VRApp/objects/hemisphere.cpp:49-62 | a ring adds six indices per segment |
| Meshes.OuterQuads | src/VRApp/objects/hemisphere.cpp:41-63 | rings 2..r add 6*segments*(r-1) indices |
| Meshes.HemiSphere | src/VRApp/objects/hemisphere.cpp:17-67 | the constructor builds the pole, the fan, and each further ring with its quads |
| Meshes.AddFan | src/VRApp/objects/hemisphere.cpp:34-38 | the fan loop builds the fan |
| Meshes.AddRing | src/VRApp/objects/hemisphere.cpp:44-47 | the ring loop appends the ring's vertices |
| Meshes.AddRingQuads | src/VRApp/objects/hemisphere.cpp:49-62 | the quad loop, computed back from the new ring, joins it to the previous ring |
| Meshes.NextRing | src/VRApp/objects/hemisphere.cpp:41-63 | one more ring appends its vertices and quads |
| Meshes.HemiCounts | src/VRApp/objects/hemisphere.cpp:17-63 | 1 + segments*rings vertices and 3*segments + 6*segments*(rings-1) indices |
| Meshes.RingBlock | src/VRApp/objects/hemisphere.cpp:43-47 | ring r occupies [1+segments*(r-1), 1+segments*r) in segment order |
| Meshes.FanTriangles | src/VRApp/objects/hemisphere.cpp:34-38 | fan triangle i joins segment i to the next, wrapping round, and ends at the pole |
| Meshes.HemiIndicesInRange | src/VRApp/objects/hemisphere.cpp:34-62 | every index names an existing vertex |
| Meshes.CubeVertices | src/VRApp/objects/cube.cpp:5-16 | eight vertices |
| Meshes.CubeTexCoords | src/VRApp/objects/cube.cpp:19-30 | eight texture coordinates |
| Meshes.CubeColors | src/VRApp/objects/cube.cpp:33-44 | eight colours, every component 0 or 1 |
| Meshes.CubeIndices | src/VRApp/objects/cube.cpp:46-65 | 36 indices |
| Meshes.CubeTexCoordsFollowVertices | src/VRApp/objects/cube.cpp:5-30 | each texture coordinate is (v+1)/2 of its vertex |
| Meshes.CubeIndicesCoverVertices | src/VRApp/objects/cube.cpp:46-65 | every index is below 8 and every vertex is used |
| Meshes.CubeFaces | src/VRApp/objects/cube.cpp:46-65 | each face's six indices name exactly the four vertices sharing that face's coordinate |
| Meshes.PlaneVertices | src/VRApp/objects/plane.cpp:5-10 | four vertices, all with z = 0 |
| Meshes.PlaneIndices | src/VRApp/objects/plane.cpp:12-15 | six indices, each below 4 |
| Meshes.PlaneTriangles | src/VRApp/objects/plane.cpp:5-15 | the corners are (±1, ±1, 0), and the two triangles share the diagonal 0–2 and use all four corners |
| FrameUtil.LerpEnds | src/VRApp/frame_util.cpp:13-16 | `lerp` gives start at u_start and end at u_end |
| FrameUtil.LerpWithin | src/VRApp/frame_util.cpp:13-16 | on [u_start, u_end) it stays in [start, end), reaching start only at u_start |
| FrameUtil.HounsfieldBands | src/VRApp/frame_util.cpp:19-30 | every band of the table has a non-empty range |
| FrameUtil.FirstMatchIsFirst | src/VRApp/frame_util.cpp:31-40 | the first band covering the value decides |
| FrameUtil.FirstMatchNone | src/VRApp/frame_util.cpp:40 | a value no band covers gives 0 |
| FrameUtil.ScanBands | src/VRApp/frame_util.cpp:31-40 | the loop with its early return computes the first match |
| FrameUtil.Hounsfield | src/VRApp/frame_util.cpp:18-41 | `hounsfield` computes the table's first match |
| FrameUtil.HounsfieldCases | src/VRApp/frame_util.cpp:26-29 | 900..1199 → [0.8, 1), 1200..1999 → [0.3, 0.5), 2000..3999 → [0.2, 0.3), 0..899 → [0.01, 0.1), anything else → 0 |
| FrameUtil.HounsfieldRange | src/VRApp/frame_util.cpp:18-41 | every result lies in [0, 1) |
| FrameUtil.SeqMax | src/VRApp/frame_util.cpp:45 | `max_element` is an element and bounds every element |
| FrameUtil.CeilDiv | src/VRApp/frame_util.cpp:46 | `ceil(a/b)` is the least q with a <= q*b |
| FrameUtil.BucketContains | src/VRApp/frame_util.cpp:54-55 | each value lies inside its own bucket |
| FrameUtil.InitialBucketsShape | src/VRApp/frame_util.cpp:48-51 | the pre-created map holds exactly buckets 0..num-1, all zero |
| FrameUtil.BucketKeys | src/VRApp/frame_util.cpp:53-57 | one bucket key per value |
| FrameUtil.CountedSpec | src/VRApp/frame_util.cpp:53-57 | after counting, each bucket holds its previous count plus the values falling in it |
| FrameUtil.CountBuckets | src/VRApp/frame_util.cpp:48-57 | both loops give the pre-created buckets and each value's bucket, with each count equal to the number of values in it |
| FrameUtil.CreateBuckets | src/VRApp/frame_util.cpp:48-51 | the first loop leaves exactly the `num` pre-created zero buckets |
| FrameUtil.AddValues | src/VRApp/frame_util.cpp:53-57 | the second loop leaves the counts of adding the values one at a time, in order |
| FrameUtil.Histogram | src/VRApp/frame_util.cpp:43-59 | `histogramm` counts every value once under the bucket size ceil(max/num) |
| FrameUtil.MaxBucketPreCreated | src/VRApp/frame_util.cpp:46-56 | the maximum's bucket is pre-created iff num does not divide the maximum |
| FrameUtil.CeilBucketIndex | src/VRApp/frame_util.cpp:46-54 | the maximum's bucket index is below num iff num does not divide it |
| FrameUtil.IntendedBucketSize | src/VRApp/frame_util.cpp:46 | the corrected size is positive and num*size exceeds the maximum |
| FrameUtil.IntendedHistogram | src/VRApp/frame_util.cpp:43-59 | with the corrected size there are exactly num buckets, and every value is counted in one of them |
| FrameUtil.BucketKeysPreCreated | src/VRApp/frame_util.cpp:49-56 | when num*size exceeds the maximum, every value's bucket is pre-created |
| FrameUtil.UnitCoordinateRange | src/VRApp/util.cpp:22-24 | i/(n-1) runs strictly increasing from 0 to 1 |
| FrameUtil.CoordinateRange | src/VRApp/util.cpp:33-35 | 1 - 2i/(n-1) runs strictly decreasing from 1 to -1 |
| FrameUtil.FalloffRange | src/VRApp/frame_util.cpp:124-125 | the falloff lies in [0, 1], is 1 exactly on the surface, and is positive iff diff < cutoff |
| FrameUtil.MakeImplicitSurfaceFrame | src/VRApp/frame_util.cpp:115-128 | an n³ frame whose cell (i, j, k) is the falloff of the function at the cell's coordinates |
| FrameUtil.MakeParaboloidFrame | src/VRApp/frame_util.cpp:130-134 | the implicit frame of x²+y²-z |
| FrameUtil.MakeHyperboloidFrame | src/VRApp/frame_util.cpp:136-140 | the implicit frame of 2x²+2y²-2z²-1 |
| FrameUtil.MakeHyperbolicParaboloidFrame | src/VRApp/frame_util.cpp:142-146 | the implicit frame of x²-y²-z |
| FrameUtil.MakeTorusFrame | src/VRApp/frame_util.cpp:162-167 | the implicit frame of the torus polynomial |
| FrameUtil.ImplicitCellRange | src/VRApp/util.cpp:66-69 | every implicit-surface cell lies in [0, 1], and for a positive cutoff is 1 iff the cell lies on the surface |
| FrameUtil.CentreCells | src/VRApp/frame_util.cpp:130-146 | the centre cell is on the paraboloid and the hyperbolic paraboloid but not on the hyperboloid |
| FrameUtil.MakeAnalyticalSurfaceFrame | src/VRApp/frame_util.cpp:100-113 | an n³ frame whose cell is the falloff of the height difference |
| FrameUtil.AnalyticalCellRange | src/VRApp/util.cpp:52-54 | every analytical cell lies in [0, 1], and for a positive cutoff is 1 iff z equals the surface height |
| FrameUtil.MakeSectorFrame | src/VRApp/frame_util.cpp:73-82 | an n³ frame whose cell is the cell's distance from the origin over sqrt(3) |
| FrameUtil.SectorCellRange | src/VRApp/frame_util.cpp:75-80 | every sector cell lies in [0, 1] |
| FrameUtil.SectorCorners | src/VRApp/frame_util.cpp:75-80 | the sector is 0 at the first corner and 1 at the opposite one |
| FrameUtil.MakeSphereFrame | src/VRApp/frame_util.cpp:84-98 | an n³ frame of the sphere cell values |
| FrameUtil.SphereCellRange | src/VRApp/util.cpp:30-43 | a sphere cell is 0 wherever z < 0, always lies in [0, 1], and is positive iff z >= 0 and the point is inside the open unit ball |
| FrameUtil.BubbleSumNonNegative | src/VRApp/frame_util.cpp:189-196 | the summed contributions are never negative |
| FrameUtil.BubbleValue | src/VRApp/frame_util.cpp:188-197 | the cell value is min(sum, 1), in [0, 1] |
| FrameUtil.MakeBubblesFrame | src/VRApp/frame_util.cpp:169-200 | an n³ frame of bubble values for the given bubbles |
| FrameUtil.BubbleCellRange | src/VRApp/frame_util.cpp:183-198 | every bubbles cell lies in [0, 1] |
| FrameUtil.MakeRandomFrame | src/VRApp/frame_util.cpp:62-71 | the draws fill the frame in order |
| Window.LoaderFor | src/VRApp/main_window.cpp:182-186 | a file goes to the cube loader iff its name ends with ".cube" |
| Window.WindowTitleShape | src/VRApp/main_window.cpp:204 | the title starts with the default title, equals it iff the frame title is empty, and otherwise continues with ": " and the frame title |
| Window.WindowTitleInjective | src/VRApp/main_window.cpp:204 | different frame titles give different window titles |
| Window.MainWindow.constructor | src/VRApp/main_window.cpp:42-56 | the window starts with its designed title and no frame |
| Window.MainWindow.SetFrame | src/VRApp/main_window.cpp:203-207 | the title is composed from the frame's title, and the frame is shown |
| Window.MainWindow.InitGlWidget | src/VRApp/main_window.cpp:63-71 | start-up shows the sector frame, the rainbow palette and the default opacity table |
| Window.MainWindow.Open | src/VRApp/main_window.cpp:169-189 | a cancelled dialog changes nothing; otherwise the chosen loader's frame is shown under the file's name |
| Window.MainWindow.SelectOpacity | src/VRApp/main_window.cpp:113-155 | the menu sets the default, x^n or fully opaque table |
| Window.MainWindow.SelectPalette | src/VRApp/main_window.cpp:157-167 | the menu sets the rainbow or the monochrome palette |
| Window.MainWindow.EditCutoff | src/VRApp/main_window.cpp:230-237 | the cutoff changes only when the dialog is accepted, and then to exactly its low and high |

## Left out

- **Floating point.**
  - `float`/`double`/`GLfloat` are modelled as `real`, so rounding is not modelled. The constants 0.529177249, 0.2, 0.01 and so on are exact.
  - Float samples are kept as their four bytes (`FloatSample`), because IEEE decoding is left out.
  - `Frame3D::normalize` is left out. It is called after loading and re-indexing, and its definition is not part of this model.
- **Square roots and trigonometry.**
  - sqrt(3) is a parameter `s` with `s > 0 && s*s == 3`.
  - The Euclidean norm and `distanceToPoint` are parameters described by `IsNorm` and `IsDistance`.
  - The hemisphere vertex positions (`point()`, cos/sin) are left out. A vertex is recorded by its ring and segment.
  - The helix and helicoid generators (cos/sin) are left out. Their cell rule is `MakeImplicitSurfaceFrame` with another function.
- **Randomness.** `makeRandomFrame` takes its draws as a parameter. `makeBubblesFrame` takes its bubbles (positions and radii) as a parameter. Seeding and the distributions are left out.
- **Matrices.**
  - A matrix is passed around but never multiplied; `IdentityMatrix` is the only one built.
  - The texture and plane matrices are reduced to one axis (`Affine`).
  - `inverted()`, the eye and light positions and `view_distance` are left out. `view_distance` is a parameter.
- **Qt, the widget and GL buffers.**
  - Widgets, QSettings, the background colour, the about and exit slots and the GL widget's own state are left out.
  - The mesh attachments made in `doInit` are left out.
  - Shader compilation and linking enter as a `ShaderBuild` parameter, and shader programs are not part of this model.
  - `Renderer::init` and `initJitter` are declared but not defined. The jitter texture is only a field.
- **Window.**
  - Generator menu slots that only call a generator and `setFrame` are not separate members.
  - The window records where a frame came from (`FrameOrigin`), not its cells.
  - `makeRainbowWithBlackPalette` is used but not defined, and is left out.
  - Loader exceptions escaping `on_actionOpen_triggered` are left out.
  - Window.MainWindow.Open: records the loader and the file name, not the loaded frame.
- **Console output.** All printing to stdout and stderr is left out.
- **Images.** `QImage` decoding and conversion to Grayscale16 in `VolumeImgRead` are a `decode` parameter.
- **Integer widths.**
  - The `size_t` products `w*h*d` are unbounded, so wrap-around is not modelled.
  - `size_t` is 8 bytes wide.
  - `static_cast<size_t>` of a negative `stoi` result in the two slice tools is excluded by their `requires`. The numeric-argument check is modelled, the cast is not.
  - The `static_cast<std::streamsize>` and `static_cast<int>` of the read sizes do not overflow in the model.
- **Tools.**
  - VolumeRead.Run and VolumeImgRead.Run require at least six arguments. The tools read argv[1..5] unchecked, and a shorter argument list is undefined behaviour.
  - `std::stoi` and `QString::toInt` are modelled for decimal text with an optional sign and leading white space. Other bases and locale effects are left out.
- **Cube words.**
  - The cube reader works on words that are already classified as integer, other number, or not a number.
  - A fractional word read into an `int` or `size_t` fails the stream. In the source it reads the integer part and leaves the rest, and that is not modelled.
  - Lower-casing is ASCII only.
- **Spin boxes.** The raw dialog's spin-box range clamping is not modelled: a detected dimension is stored as captured.
- **Histogram.**
  - Histogram: requires a positive maximum, a non-empty input and `num > 0`. With a zero maximum the bucket size is 0 and the bucket bounds are NaN. An empty input makes `max_element` undefined. With zero buckets, or a negative count, `float(max)/num` at frame_util.cpp:46 is not a finite bucket size, and converting the bucket bounds to `int` is undefined.
  - `hounsfield` and `histogramm` are unused helpers in an anonymous namespace. They are modelled for what they compute.
- **Palettes.** Palettes.MakeOpacityPalette requires size > 0: with size 0 every sample is f(0/0) = f(NaN).
- **Renderer.**
  - Rendering.Renderer.Render requires `Renderable`, a non-zero max_dim*multiplier. Otherwise the step is a float infinity.
  - `DrawSlabs` records each plane by its depth.
  - The renderer headers do not match their definitions. slice_renderer.h declares `init` and `render` with `override`, but `Renderer::init` and `Renderer::render` are not virtual. slice_renderer.cpp defines `doInit` and `doRender`, which that header never declares. ray_cast_renderer.h overrides the non-virtual `Renderer::enableLighting`. The model follows the .cpp definitions: each renderer's `doInit` and `doRender` run from `Renderer::init` and `Renderer::render`. The ray caster's `enableLighting` sets its own flag, `Rendering.Renderer.EnableRayCastLighting`, which its `doRender` passes to the shader.
- **Generators.** FrameUtil.MakeImplicitSurfaceFrame and the other generators require `n != 1` and a non-zero cutoff. With n = 1 the coordinate map divides by zero, and a zero cutoff divides 0 by 0 on the surface.
- **Frame3D.** `frame3d.h` lacks `at`, `fill`, `width` and `normalize`, which the code calls. Their behaviour is taken from their uses. The storage layout x + width*(y + height*z) follows the re-indexing comment in cube_util.cpp.
- **Tag dispatch.** `FrameLoader` reads tag 4 (int32) with the unsigned 32-bit reader. The model keeps this as written, `FrameLoader.Int32ReadAsUnsigned` states that the result lies in [0, 2^32), and `VolumeConvert.ConvertInt32RoundTrip` states that a written int32 value v loads back as v modulo 2^32.

## Findings

| source | as written | input that shows it | evidently intended | confidence | as-written member | corrected member |
|---|---|---|---|---|---|---|
| src/VolumeImgRead/main.cpp:27 | `path.replace("@", num)` rewrites `path` itself, so after slice 1 no '@' is left and every later slice opens slice 1's file | path "slice@.png", depth 2: both slices read "slice001.png" | each slice z reads the original path with '@' replaced by z's number | high; not executed | VolumeImgRead.PathAtIsFirst | VolumeImgRead.IntendedPathsDistinct |
| src/VRApp/cube/cube_data.cpp:16-18 | `operator<<` writes the three components with no separator | (1, 23, 4) and (12, 3, 4) both print "1234" | components separated by white space, which `operator>>` reads back | high; not executed | CubeData.FormatVectorAmbiguous | CubeData.FormatVectorSpacedInjective |
| src/VRApp/frame_util.cpp:46 | the bucket size is ceil(max/num), so when num divides the maximum, the maximum falls into a bucket beyond the num pre-created ones | values [10], 5 buckets: size 2, and 10 lands in bucket (10, 12), a sixth bucket | every value of [0, max] falls into one of the num pre-created buckets | medium; not executed | FrameUtil.MaxBucketPreCreated | FrameUtil.IntendedHistogram |
| src/VRApp/raw_dialog.cpp:77-83 | the scan takes the first listed name that occurs, and "int8", "int16", "int32" come before the unsigned names that contain them | file name "vol_uint8.raw" selects int8 | a name holding "uint8" selects uint8 (unsigned names tried before the signed names they contain) | high; not executed | RawDialog.UnsignedKeyDetectedAsSigned | RawDialog.IntendedTypeOfOwnName |
