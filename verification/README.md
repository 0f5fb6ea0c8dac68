# A verified model of the XDR codec

The library encodes Go values in the External Data Representation (RFC 4506) by reflection. It compiles each
pair of a Go type and a field tag into a codec object, keeps the objects in caches shared by all goroutines, and
then runs them against a writer or a reader. This project models that in Dafny and proves what the four parts
promise, and what they promise together:

1. **Compilation.** `Compiler.Coder` is the compiler: it looks keys up in two caches, reserves a deferred codec for a
   key it is about to build, builds, publishes and resolves. Types are entries of a finite table that name each
   other, so they may be cyclic. `Meaning` gives an independent semantics that reads types and tags directly, with
   no codec objects, and proves that the compiled graph has exactly that meaning, errors included.
2. **Concurrency.** `Protocol` is the same compiler as a state machine over any number of goroutines, one atomic map,
   value or wait-group operation a step. `Runs`, `Handles` and `Asks` prove safety and progress over all runs.
   `TypeGraph` and `Interleaved` join it to the first part: at any moment of any run, a call on any codec handed out
   does what its type and tag say, or does the beginning of it and then waits for a codec still being built; once
   the codecs in its reach are resolved it just does what they say. `Resuming` says the same of a call spread over
   a run, each part of it in a state of its own. `EncoderCache` runs the encoder's four-slot cache over that
   protocol.
3. **The wire.** `Codecs` says what each codec writes and reads (the reflective form). `Wire` holds it against RFC 4506,
   item by item, and `Unions` says which arm is written and read, from the fields' tags. On top of it: `RoundTrips`, `Visited`
   (what an encoding depends on), `Maps`, `Normalise` (decoding then encoding), `Paths` (error paths), `Streams`
   (readers that deliver arbitrary chunks, the decoding loops, streaming opaque data), `Writers` (the encoding
   loops), and the offset-based form over flat memory in `Memory`, `Landing`, `Unsafe`, `Laid` and `InMemory`. On which
   types decoding ends is settled by `Termination`, `Progress`, `Ending`, `Exhaustion` and `Cycles`. `TypeLaws` states the
   laws of the wire for types and tags, without compiled codecs.
4. **Tags.** `Tags` is the byte format used as a cache key, `TagParser` the parser that walks a type in step with a tag,
   `Structs` the reading of a struct as an XDR struct or union. `Spelling` and `Layouts` say from outside, part by part
   and field by field, what these two make of a tag and a struct, and `TagMeaning` what each part does on the wire.

How values are modelled: a `Value` is a finite tree; floats are their bit patterns; a map carries its entries in the
order one iteration yields them; `VUnset` in a decoder's result marks a place decoding leaves alone (skipped fields
and inactive arms), so that equality of results is equality modulo those. A codec refers to others through a
graph, a resolved deferred codec standing for its real one. Decoding takes the number of nested composite calls
the stack allows; `TooDeep` is running out of it. `Cycles.DecodingEndsIff` says exactly when every input has a
stack that suffices.

## Where the code and its documentation or comments differ

The model follows the code.

- `DecodeOpaque` drops the error of its last read (internal/coder/decoder.go:116-117), so a body cut short is not
  an error: the missing bytes read as zeros. `Normalise.TruncatedBodyGrows` is an input that grows when it is
  re-encoded. `Normalise.Unbroken` follows a decode and asks, at each variable-length opaque or string, that as many
  bytes follow the length word as it and its padding call for; `Normalise.NormalisationLaw` proves that lengths
  agree if and only if that holds.
- Nothing rejects a type whose decoding cannot end, such as `type T *T` (internal/coder/codec_ptr.go:43-58).
  `TypeGraph.TypesDecodeIff` is the exact condition: no cycle of calls that are made before a byte is taken.
- A codec that an encoder has cached while another goroutine was building it stays cached as the deferred one
  (internal/coder/encoder.go:177-182). `EncoderCache.CacheIsTransparent` and `Handles.KeptAgainstNow` say what that
  can change: only a wait between publication and resolution.
- The tag parser takes an int8, int16, int64, int or 8- and 16-bit unsigned union switch
  (internal/tags/tags.go:269-286), for which `makeStructCodec` panics (internal/coder/codec_struct.go:107-121).
  `Structs.OnlyTheKindPanics` says exactly which structs do that. The compiler is specified for tables without
  them. A goroutine that panics there goes no further in its builds: `Runs.AbandonedBuildStrands` says that each of
  their deferred codecs stays unresolved for ever, with every call on it waiting.
- The parser takes `len:` on slices (internal/tags/tags.go:438-445), but such a slice gets an error codec.
- The path of an undefined-arm error notes the default index, always -1, where other union errors note the switch
  value (internal/coder/codec_struct.go:204-214).
- A map whose keys are structs with skipped fields can lose entries on the way: `Maps.SkippedKeysCollide` is a map
  that does, `Maps.EntriesSurviveIff` says exactly which do.
- Closing an opaque reader twice reads into what follows: `Streams.SecondClose`.

## Model

| member | source | states |
|---|---|---|
| Words.WordRoundTrip | internal/coder/encoder.go:72-79 | a 32-bit word read back from its four bytes, with anything after them, is the word |
| Words.WordBytesAt | internal/coder/decoder.go:50-54 | writing the word read from four bytes gives those bytes |
| Words.HyperRoundTrip | internal/coder/encoder.go:93-104 | the same for 64-bit words |
| Words.HyperBytesAt | internal/coder/decoder.go:61-72 | writing the hyper read from eight bytes gives those bytes |
| Words.PaddingAgrees | internal/coder/decoder.go:128 | the decoder's and stream reader's rounding formula and the encoder's padding formula agree for every length |
| Wire.WordIsBigEndian | internal/coder/encoder.go:72-79 | the four bytes of a word, most significant first, add up to it |
| Wire.HyperIsBigEndian | internal/coder/encoder.go:93-104 | so do the eight bytes of a hyper |
| Wire.BoolsWritten | internal/coder/encoder.go:85-91 | false is the word 0, true the word 1 |
| Wire.BoolsRead | internal/coder/decoder.go:29-43 | only these words are read as bools, any other is an invalid value |
| Wire.NumbersWritten | internal/coder/codec_primitive.go:31-119 | which integers each type holds, and that each is written as itself or its two's complement, in a word or a hyper |
| Wire.ComplexWritten | internal/coder/codec_primitive.go:132-165 | a complex number is its real and then its imaginary part |
| Wire.WordMissing | internal/coder/decoder.go:50-54 | no input where a word should be is the end of the stream, part of a word an unexpected end |
| Wire.PointersWritten | internal/coder/codec_ptr_nounsafe.go:15-20 | a nil pointer cannot be written unless optional, and then is the word 0; any other is the word 1, if optional, and what it points to |
| Wire.PaddingWritten | internal/coder/encoder.go:121-129 | padding fills up to the next multiple of four with zeros |
| Wire.FixedWritten | internal/coder/codec_string.go:78-84 | fixed-length data is its bytes and padding; a string of another length is refused |
| Wire.VariableWritten | internal/coder/codec_array.go:158-165 | variable-length data is its length, bytes and padding; refused exactly when longer than the maximum |
| Wire.ItemsWritten | internal/coder/codec_array.go:90-97 | items are written one behind the other, in order |
| Wire.ListsWritten | internal/coder/codec_map.go:54-75 | arrays are their elements; slices and maps are a count and their elements, or keys and elements by turns; refused exactly when the count is above the maximum |
| Wire.StructWritten | internal/coder/codec_struct.go:171-179 | a struct is its fields one behind the other |
| Wire.MapsRead | internal/coder/codec_map.go:77-104 | a map that is read has the keys that were sent, each once, with the element of the last entry sent for it |
| Tags.HeadReads | internal/tags/tags.go:95-133 | on the bytes of any well-formed list of entries, `Kind`, `ValueRange` and `Next` give the first entry's kind, its number of values, and exactly the bytes of the rest |
| Tags.HeadValueReads | internal/tags/tags.go:165-168 | `Value` over that range gives each value of the entry, within bounds |
| Tags.EntriesRoundTrip | internal/tags/tags.go:104-208 | walking a tag with those operations recovers the list of entries it was built from |
| Tags.KeysAreDistinct | internal/coder/coder.go:54-63 | two tags have the same bytes, and so the same cache key, exactly when they are the same entries |
| Tags.Append | internal/tags/tags.go:171-200 | appending an entry, with its loop over the values, gives the bytes of the extended list |
| Tags.Prepend | internal/tags/tags.go:203-208 | prepending gives the bytes of the list with the entry in front |
| Tags.Trimmed | internal/tags/tags.go:211-226 | the marking loop cuts the bytes of a tag down to those of the tag without its trailing Noops, never inside a value |
| Tags.TrimIsUnique | internal/tags/tags.go:211-226 | the result is the only trimmed prefix that leaves out Noops alone, so trimming is idempotent |
| Tags.ViewsAgree | internal/tags/tags.go:95-138 | kind, next and only value of the bytes are those of the entry list the compiler's model works with |
| Tags.KeysStayCanonical | internal/coder/codec_ptr.go:21 | going to the next entry, and the Opt to Noop rewrite, keep a tag trimmed, never lengthen it, and the rewrite leaves what follows alone |
| TagParser.ParseTag | internal/tags/tags.go:340-477 | the byte-building parser gives the bytes of the specified entries, the specified error, and the specified union mode |
| TagParser.LayersFit | internal/tags/tags.go:400-474 | parsed layers line up with the types they reach: `opt` on pointers and interfaces, lengths on strings and slices, `opaque` on bytes, and never past a type without an element |
| TagParser.ParsedTagFits | internal/tags/tags.go:340-477 | a successful parse gives a well-formed, trimmed tag that fits the type; its first entry is a union entry exactly when the tag has a union part, and Skip exactly for a dash |
| TagParser.UnionDecidedOnce | internal/tags/tags.go:357-398 | the union mode leaves its undecided state at the first field not skipped and never changes again; inside a union every field has a union part, a switch only at the first |
| TagParser.OpaqueShorthand | internal/tags/tags.go:414-430 | after any prefix of parts that reaches a byte array or slice, `opaque` and `/opaque` parse to the same entries |
| TagParser.OpaqueShorthandTag | internal/tags/tags.go:414-430 | so they give the same tag, with any union part in front |
| Spelling.ParseSpells | internal/tags/tags.go:340-477 | a tag that parses loses nothing and adds nothing: a dash is Skip; the union part has the first entry (switch, default, or cases with [0] for `false`, [1] for `true`, its numbers otherwise); then entry i is Opt for `opt`, Len [n] for `len:n`, MaxLen [n] for `maxlen:n`, Noop for a blank, and Opaque for `opaque`, one further on where that stands for `/opaque`; only blanks at the end are cut |
| Spelling.SpellsOnce | internal/tags/tags.go:340-477 | that leaves no choice: two tags that say what the same parts say are equal |
| Spelling.ParsesIff | internal/tags/tags.go:269-474 | a tag parses exactly when its union part is allowed there and no part is wrong at the type it reaches, both spelled out per part and type (a switch on bools and all integers but uint64 and uintptr); otherwise the error is that of the first thing wrong, the union part first |
| Spelling.ParseDecides | internal/tags/tags.go:357-398 | a tag that parses and has a union part leaves the parser inside a union, one that has none outside |
| Structs.LayoutShaped | internal/coder/codec_struct.go:124-165 | fields of a compiled struct are distinct and in order; every arm a case or the default selects has a body field, after the switch |
| Structs.OnlyTheKindPanics | internal/coder/codec_struct.go:55-121 | the panics for an undecided field and for a first field that is no switch are unreachable; the panic on the switch's kind happens exactly when the first unskipped field is a switch the parser takes that is not bool, int32 or uint32 |
| Structs.ParserAcceptsBadSwitch | internal/tags/tags.go:269-286 | an int8 switch is such a field |
| Structs.AddCasesIs | internal/coder/codec_struct.go:139-149 | the value loop succeeds exactly for values that are new and pairwise distinct, and then adds exactly those, for this arm; otherwise the error names the first value that was taken |
| Structs.UnionTable | internal/coder/codec_struct.go:124-165 | once fields parse, the union compiles exactly when no value is listed twice and at most one default exists, fails with a duplicate otherwise, and then `cases[v] == i` exactly when the union part of field i lists v (0 for `false`, 1 for `true`, its numbers otherwise), and the default is the field whose union part is `default` |
| Layouts.FirstField | internal/coder/codec_struct.go:48-121 | the first field not skipped decides: no union part makes a struct, a switch makes a union exactly on int32, uint32 and bool, with the kind of that name |
| Layouts.PlainLayout | internal/coder/codec_struct.go:74-97 | a struct has exactly the fields that are not skipped, in order, each under the tag that its parts spell, unless a tag does not parse |
| Layouts.UnionLayout | internal/coder/codec_struct.go:99-164 | a struct that starts with a switch becomes a union exactly when the switch is a bool, int32 or uint32, all tags parse, and no value and no default is given twice; its table then sends v to the field that lists v, its default is the field marked so or none, and its bodies are the fields not skipped |
| Codecs.WithFieldError | internal/errors/errors.go:116-142 | the step, with its field and note and its owner or the name for anonymous types, is put in front of the unchanged path; the cause is never wrapped twice |
| RoundTrips.RoundTrip | internal/coder/codec_array.go:173-212 | every value that encodes without error is decoded back, modulo skipped fields and inactive arms and with repeated map keys merged, from its encoding followed by any bytes, which are left over exactly |
| RoundTrips.EncodingsAreUnambiguous | internal/coder/codec_struct.go:171-216 | no encoding is a proper prefix of another, and values with the same encoding are the same modulo skipped fields and inactive arms |
| Visited.CanonIff | internal/coder/codec_struct.go:181-216 | two values have the same canonical form, which is what a round trip gives back, if and only if they agree at every place the codec visits: everywhere but in skipped fields and arms not selected; for every codec from which no map is reached, whatever else is in the graph |
| Visited.CanonLosesNothing | internal/coder/codec_struct.go:181-216 | a value and its canonical form agree at every visited place and encode to the same bytes and error |
| Visited.AgreeingEncodeAlike | internal/coder/codec_struct.go:181-216 | values that agree there encode alike, errors and paths included |
| Visited.SameBytesIff | internal/coder/codec_struct.go:181-216 | two values that can be encoded have the same encoding if and only if they agree at every visited place |
| Visited.KeysApartIff | internal/coder/codec_map.go:54-104 | keys of a map have different canonical forms if and only if any two differ at a place the key codec visits |
| RoundTrips.WholeUnits | internal/coder/encoder.go:121-129 | whatever was written, even before an error, is a whole number of four-byte units |
| RoundTrips.ArmAgreesWhenWriting | internal/coder/codec_struct.go:188-199 | the case key of a bool, int32 or uint32 switch in memory, negatives included, is the word written for it |
| RoundTrips.ArmAgreesWhenReading | internal/coder/codec_struct_nounsafe.go:72-83 | the case key after decoding such a switch is the word that was read, so both ends pick the same arm |
| Unions.UnionWrites | internal/coder/codec_struct.go:181-216 | after its switch a union codec writes the body that the table has for the case value; if the table has none, the body of the default; if there is none, nothing, with the undefined-arm error |
| Unions.UnionReads | internal/coder/codec_struct_nounsafe.go:65-100 | and it reads that body after its switch, or fails so |
| Unions.SwitchWrites | internal/coder/codec_struct.go:188-198 | the word a switch writes is the case value its value stands for: 0 or 1 for a bool, else the low 32 bits |
| Unions.SwitchReads | internal/coder/codec_struct_nounsafe.go:72-82 | the word it reads is the case value of what it decodes to |
| Unions.UnionTypeWrites | internal/coder/codec_struct.go:124-216 | a value of a union type is written as its case value and then the field whose union part lists it, or the default field if no field lists it, under the further parts of that field's tag; with neither, as its case value and the undefined-arm error |
| Unions.UnionTypeReads | internal/coder/codec_struct_nounsafe.go:65-100 | it is read as a word and then the field so selected, no other field being touched; with neither, it fails |
| Maps.MergeKeepsKeys | internal/coder/codec_map.go:86-102 | storing decoded entries one after the other leaves each key once, no key lost, and all entries as sent exactly when no key was repeated |
| Maps.LastEntryWins | internal/coder/codec_map.go:86-102 | in the map that is left, each key has the element of the last entry sent with that key, and no other |
| Maps.MapsRoundTrip | internal/coder/codec_map.go:54-104 | for every order an iteration may yield the entries in, decoding rebuilds the map, if the canonical forms of its keys are distinct |
| Maps.EntriesSurviveIff | internal/coder/codec_map.go:54-104 | that condition is exact: the number of entries survives if and only if it holds |
| Maps.SkippedKeysCollide | internal/coder/codec_map.go:54-104 | two keys that differ in a skipped field only come back as one entry, with the value sent last |
| Normalise.NarrowTidied | internal/coder/codec_primitive.go:31-49 | any word read as an 8- or 16-bit integer is written back as its low bytes under their own sign, or under zeros for unsigned types; wider ones unchanged |
| Normalise.DecodedIsNormal | internal/coder/decoder.go:101-134 | whatever a codec decodes from which no map is reached, in any graph, is in canonical form and re-encodes without error to the normalised input, a function of the input and of where its padding and narrow integers lie; missing bytes of a body that breaks off become zeros |
| Normalise.NormalisationLaw | internal/coder/decoder.go:101-134 | decoding then encoding sets padding to zero and the high bytes of 8- and 16-bit words to the extension of the low ones, nothing else; it takes and writes the same length if and only if every variable-length opaque or string met has its padded body in the input, and otherwise consumes all input and writes more |
| Normalise.NormalisationIsIdempotent | internal/coder/decoder.go:101-134 | decoding the re-encoded bytes gives the same value, so normalising again changes nothing |
| Normalise.TruncatedBodyGrows | internal/coder/decoder.go:116-117 | an input with its opaque body cut short decodes without error and re-encodes longer |
| Termination.DeeperIsSame | internal/coder/codec_ptr_nounsafe.go:22-25 | a decode that did not run out of stack gives the same result with any larger stack |
| Progress.EmptyDecodes | internal/coder/codec_struct_nounsafe.go:44-57 | codecs of zero length, such as structs of empty fields and arrays of none, succeed on every input and take nothing |
| Progress.ConsumesOrEmpty | internal/coder/codec_array.go:191-212 | every other codec takes at least four bytes when it succeeds |
| Progress.OnlySuchSucceed | internal/coder/codec_special.go:42-58 | a codec that decodes some input is one of those that the inductive definition says can succeed |
| Ending.DecodingIsTotal | internal/coder/codec_ptr.go:43-58 | where ranks drop along calls made before anything is taken, decoding ends on every input, within a stack bounded by the input's length, with one result |
| Exhaustion.SampleOf | internal/coder/codec_array.go:191-212 | and conversely every codec said to be able to succeed has an input that it decodes, whatever follows it |
| Exhaustion.StartsRunOut | internal/coder/codec_ptr_nounsafe.go:22-25 | a codec that calls another before taking anything runs out of stack wherever that one does, on the same input |
| Exhaustion.CallEndless | internal/coder/codec_ptr_nounsafe.go:22-25 | if a codec that it may call at all runs out of every stack on some input, so does the codec on some input |
| Cycles.UnguardedNeverEnds | internal/coder/codec_ptr_nounsafe.go:22-25 | in a set of codecs that each call one of the set before taking anything no stack is ever enough, on any input |
| Cycles.DecodingEndsIff | internal/coder/codec_ptr.go:43-58 | decoding with a codec ends on every input if and only if no cycle of such calls can be reached from it |
| Cycles.SelfNeverEnds | internal/coder/codec_ptr.go:43-58 | `type T *T` is such a cycle: it ends on no input |
| Cycles.HollowNeverEnds | internal/coder/codec_struct_nounsafe.go:44-57 | so is a struct that leads back to itself after an empty field |
| Cycles.HeadedAlwaysEnds | internal/coder/codec_struct_nounsafe.go:44-57 | one that leads back to itself after a four-byte opaque ends on every input |
| Paths.ErrorsNameTheirPlace | internal/errors/errors.go:116-142 | an encoding error's path names, outermost first, the struct and union fields that lead to the first call that failed, and its cause is that call's own error |
| Paths.ReadErrorsNameTheirPlace | internal/errors/errors.go:116-142 | the same of decoding errors: the path leads to the first call that failed on what was left of the input there |
| Shapes.TagsUpToIs | internal/tags/tags.go:340-477 | the tags the universe of keys is built from are exactly the short enough lists over the table's entries, so keys are finitely many |
| Shapes.TailIsGood | internal/coder/codec_array.go:44-48 | the key for an element of a key in the universe is in the universe |
| Shapes.StrippedIsGood | internal/coder/codec_ptr.go:19-27 | so is the key an optional asks for |
| Shapes.LayoutIsGood | internal/coder/codec_struct.go:41-169 | so are the keys of the fields of every struct |
| Compiler.BeginSound | internal/coder/coder.go:139-148 | reserving a deferred codec keeps the caches sound |
| Compiler.FinishSound | internal/coder/coder.go:150-157 | publishing the built codec in both caches and resolving the deferred one keeps them sound |
| Compiler.FewerUnknown | internal/coder/coder.go:139-148 | every reservation leaves strictly fewer keys of the finite universe to be built |
| Compiler.Coder.GetBaseCodec | internal/coder/coder.go:44-52 | returns the codec cached for the type with an empty tag, made now if there was none, and then also the type's base entry; keeps the caches sound, changes no existing entry, and terminates |
| Compiler.Coder.GetCodec | internal/coder/coder.go:54-64 | returns the codec cached for the type and tag, made now if there was none; keeps the caches sound, changes no existing entry, and terminates on cyclic types because unknown keys grow fewer |
| Compiler.Coder.GetNewCodec | internal/coder/coder.go:129-158 | reserves, builds, publishes and resolves; afterwards no more keys are pending than before |
| Compiler.Coder.Reserve | internal/coder/coder.go:137-148 | the new state: the key, and no other, maps to a fresh unresolved deferred codec |
| Compiler.Coder.Publish | internal/coder/coder.go:150-157 | the new state: the key, and the type when the tag is empty, map to the real codec, to which the deferred one is resolved; all else is as before |
| Compiler.Coder.BuildCodec | internal/coder/coder.go:160-231 | the node built is the shape the type and tag call for, with a codec fetched for each key in the key's place |
| Compiler.Coder.MakeStructCodec | internal/coder/codec_struct.go:41-169 | the three loops over the fields build the struct, union or error codec that the reading of the struct calls for |
| Compiler.Coder.MakeUnionCodec | internal/coder/codec_struct.go:100-165 | the union loop builds switch, bodies, cases and default of the specified union, or the specified duplicate or tag error |
| Compiler.Coder.FillCases | internal/coder/codec_struct.go:139-149 | the loop over case values stores the arm for each, or reports the first value already there |
| Compiler.ScanForHead | internal/coder/codec_struct.go:48-67 | the first loop stops at the first field that is not skipped or does not parse |
| Meaning.EveryCodecResolved | internal/coder/coder.go:150-157 | between builds every reference leads to a real codec of the shape its key calls for, so no call waits |
| Meaning.EncodingMeans | internal/coder/coder.go:129-231 | for every table of types, cyclic or not, every key and every value, the compiled codec writes the bytes and gives the error, path included, that type and tag define |
| Meaning.DecodingMeans | internal/coder/codec_special.go:29-63 | and decodes every input to the value, leftover or error that type and tag define |
| TagMeaning.OptWrites | internal/coder/codec_ptr.go:29-41 | under `opt` a nil pointer is 00000000, any other 00000001 and what it points to, under the further parts of the tag |
| TagMeaning.OptReads | internal/coder/codec_ptr.go:43-58 | it is read so, and any other word is an invalid value |
| TagMeaning.PointerWrites | internal/coder/codec_ptr_nounsafe.go:15-20 | without `opt` nil is an error, and any other pointer is what it points to |
| TagMeaning.BoundSpelled | internal/coder/codec_array.go:124-133 | a tag bounds lengths by the number its `maxlen` gives, and by 2^32-1 without one |
| TagMeaning.ShapeBounded | internal/coder/codec_map.go:22-52 | that bound is the maximum of the compiled slice, opaque slice, string and map codecs |
| TagMeaning.StringWrites | internal/coder/codec_string.go:96-102 | a string is refused, with the two lengths, exactly when longer than the bound, and else is its length, bytes and padding |
| TagMeaning.StringReads | internal/coder/codec_string.go:110-120 | a length word is refused exactly when above the bound |
| TagMeaning.FixedStringWrites | internal/coder/codec_string.go:78-90 | under `len:n` a string encodes exactly at length n, with no length in front, and n bytes are read |
| TagMeaning.CountWrites | internal/coder/codec_array.go:173-189 | a slice, opaque or not, or map is refused with nothing written exactly when it has more in it than the bound, and else starts with its count |
| TagMeaning.CountReads | internal/coder/codec_array.go:191-212 | a count is refused exactly when above the bound, and else so many elements are read |
| TagMeaning.OpaqueWrites | internal/coder/codec_array.go:52-88 | bytes under `opaque` or `/opaque` are written as they are and padded, a slice's behind its length |
| Compiled.CompileType | internal/coder/coder.go:44-52 | a new coder's codec for any type of a closed table, cyclic or not, encodes every value and decodes every input as the type says |
| Compiled.ListsCompile | internal/coder/coder.go:130-136 | a linked list with optional links is such a table |
| Compiled.CompiledIsRegular | internal/coder/codec_struct.go:41-169 | in any coder, whatever it has compiled, the codecs of types and tags that reach no map satisfy the premises of the normalisation law |
| TypeGraph.EncodeFollows | internal/coder/codec_special.go:42-49 | codecs that match the shapes of their keys, some perhaps unresolved, write what the graph of all keys of the table writes, or the beginning of it up to an unresolved codec |
| TypeGraph.DecodeFollows | internal/coder/codec_special.go:51-58 | and read what it reads, or stop at an unresolved codec |
| TypeGraph.TypeGraphMeans | internal/coder/coder.go:129-231 | the graph of all keys has the meaning that types and tags define |
| TypeGraph.TypesDecodeIff | internal/coder/codec_ptr.go:43-58 | decoding with the compiled codec of a key ends on every input if and only if the key reaches no cycle of calls made before anything is taken |
| TypeLaws.TypesRoundTrip | internal/coder/coder.go:129-231 | the round trip for types and tags: what the type writes it reads back, in the canonical form that the type determines |
| TypeLaws.CanonIsTyped | internal/coder/coder.go:129-231 | a compiled codec gives a value back in that form |
| TypeLaws.TypesNormalise | internal/coder/decoder.go:101-134 | the normalisation law for every type and tag that reaches no map, in tables of any types |
| TypeLaws.TypesSameBytesIff | internal/coder/codec_struct.go:181-216 | two values of such a type have the same encoding if and only if they agree wherever the type says something is written |
| Protocol.StepKeeps | internal/coder/coder.go:129-158 | every step of every goroutine, in every state satisfying it, keeps the invariant relating caches, deferred codecs and builders |
| Runs.EveryRunKeeps | internal/coder/coder.go:129-158 | so it holds after every run of any number of goroutines |
| Runs.OneBuilder | internal/coder/coder.go:137-148 | no key is ever being built in two places, by two goroutines or by one |
| Runs.RunFollows | internal/coder/coder.go:113-158 | over any run an entry only goes from absent to deferred to final, or from absent to registered; a deferred codec gets one codec and keeps it; base entries never change |
| Runs.HandlesNeverGoStale | internal/coder/codec_special.go:42-63 | any codec ever handed out for a key is, or is or will be resolved to, the codec the cache ends up with |
| Runs.ResolvedOnce | internal/coder/codec_special.go:60-63 | a deferred codec is resolved once, to the codec published for its key, and its wait group released once |
| Runs.BaseEntriesAreFinal | internal/coder/coder.go:150-156 | what the base cache holds is the finished codec of the empty-tag entry |
| Runs.BaseIsComplete | internal/coder/coder.go:150-156 | with no lookup under way the base cache holds exactly the finished codecs of untagged types |
| Runs.CallsGoOn | internal/coder/codec_special.go:42-58 | a call on a deferred codec goes on to the published one as soon as that is there and waits until then; one on a finished codec can go on to each codec its build asked for |
| Runs.WokenFindsCodec | internal/coder/codec_special.go:42-49 | a goroutine woken from its wait finds the codec there, and it is the published one |
| Runs.NoDeadlock | internal/coder/codec_special.go:42-58 | while a goroutine waits, it can wake or the builder it waits for can step |
| Runs.RunningAdvances | internal/coder/coder.go:129-158 | building never waits: a lookup or build can always take its next step |
| Runs.AtRest | internal/coder/coder.go:129-158 | when no lookup is under way, every entry is final or registered and every reference of every codec leads to the finished codec of the key asked for |
| Runs.OneGoroutineNeverWaits | internal/coder/codec_special.go:42-58 | a program with one goroutine never waits on a deferred codec |
| Runs.LookupEnds | internal/coder/coder.go:54-158 | however others run, a lookup takes no more own steps than a budget computed from its stack and the keys not yet known |
| Runs.LookupsStart | internal/coder/coder.go:44-64 | a free goroutine can always start a lookup: by loading the key's entry, or by the type's base entry |
| Runs.RegisterStores | internal/coder/coder.go:113-127 | registration succeeds exactly on a type with no entry, enters the codec there and changes no other entry |
| Runs.AbandonedBuildStrands | internal/coder/codec_struct.go:107-121 | the deferred codecs of a build that never goes on stay unreleased in every later state: nobody waiting for them wakes, every new call on an unresolved one waits, and a key not yet published keeps it |
| Handles.LookupGivesHandle | internal/coder/coder.go:54-158 | every lookup that returns gives a codec for the key asked for, finished ones only after publication |
| Handles.LookupReturns | internal/coder/coder.go:54-158 | what a lookup returns, to the program or to the build that asked, is the cache's entry for the key just then; to the goroutine that built it, the finished codec and never the deferred one |
| Handles.HandleStays | internal/coder/codec_special.go:42-63 | such a codec stays one over any run, and once resolved stays resolved to the same codec |
| Handles.HandlesAgree | internal/coder/codec_special.go:42-63 | all codecs given for one key lead to the same finished codec; one not resolved is the other or about to be resolved to it, by a builder that can step |
| Handles.NowIsFound | internal/coder/coder.go:44-52 | a goroutine that looks a known type up and is not interrupted gets the base entry at its first step, or else the entry at its second |
| Handles.KeptAgainstNow | internal/coder/encoder.go:170-185 | compared with a lookup made now, a kept codec is resolved to the same codec; it waits where the new one would not exactly from publication to resolution, and never the other way round |
| Runs.LookupsAreWaitFree | internal/coder/coder.go:54-158 | started at any point of any run, a lookup ends within a number of own steps fixed by the universe of keys |
| Asks.FieldAsksAreSlots | internal/coder/codec_struct.go:81-98 | a struct that compiles asks for exactly the codecs of its fields, in order |
| Asks.AsksSuffice | internal/coder/coder.go:160-231 | the build of a codec asks for every codec its node refers to |
| Asks.AsksAreNeeded | internal/coder/coder.go:160-231 | and, outside structs, for no other, in the order in which the node holds them |
| Asks.UnionAsks | internal/coder/codec_struct.go:123-144 | a union that compiles asks for its switch and then for its arms in order, and nothing else |
| Asks.AsksUpTo | internal/coder/codec_struct.go:82-162 | a struct in error has asked for the codecs of the fields before the one in error, and for that one's exactly when its tag parses |
| Asks.AsksStayWithin | internal/coder/coder.go:160-231 | and only for keys of the finite universe |
| Asks.CompilationIsWaitFree | internal/coder/coder.go:129-231 | so compiling any key of any closed table with supported switches, cyclic or not, takes a bounded number of own steps whatever other goroutines do |
| Interleaved.GraphIsMade | internal/coder/coder.go:129-231 | in every state of every run, the codecs each finished codec needs are among those its build was given |
| Interleaved.InterleavedIsReady | internal/coder/coder.go:129-158 | once lookups are over, any run leaves caches as sound as one goroutine would |
| Interleaved.MadeFollows | internal/coder/coder.go:129-231 | in every state of every run, every codec made so far is of the shape its key calls for or is not resolved |
| Interleaved.InterleavedMeaning | internal/coder/codec_special.go:42-58 | so in every state of every run a call on any codec handed out writes and reads what type and tag define, or stops at a codec not yet resolved after the beginning of it |
| Interleaved.SettledMeaning | internal/coder/codec_special.go:42-58 | a call that can reach resolved codecs only means just what type and tag define, whatever is being built elsewhere |
| Interleaved.RestingMeaning | internal/coder/coder.go:129-231 | once no lookup is under way that holds of every codec ever handed out |
| Resuming.EncodeSeen | internal/coder/codec_special.go:42-49 | an encoding whose parts each look at the codecs in an earlier state writes what it would write in the last one, or the beginning of it before an unresolved codec |
| Resuming.DecodeSeen | internal/coder/codec_special.go:51-58 | likewise a decoding |
| Resuming.AllAtOnce | internal/coder/codec_special.go:42-58 | with all parts in one state these are the plain encoding and decoding |
| Resuming.ResumedMeaning | internal/coder/codec_special.go:42-58 | over any run, a call whose parts happen in any states of the run, after any waiting, has written and read what type and tag define as far as it has come, and all of it when it no longer waits |
| EncoderCache.StepIsFaithful | internal/coder/encoder.go:170-185 | every encoding, step of a lookup, reset, and step of any other goroutine in any coder keeps: cached codecs are codecs for their types, each type once, and a type being looked up is not cached |
| EncoderCache.EncodeGoes | internal/coder/encoder.go:170-185 | an encoder that is free can always encode |
| EncoderCache.HitCalls | internal/coder/encoder.go:170-176 | a hit calls the cached codec and changes nothing else, in any coder |
| EncoderCache.MissFills | internal/coder/encoder.go:177-182 | a miss looks the type up, and what that gives, at once or later, goes into the slot after the last one filled |
| EncoderCache.OperateIsRun | internal/coder/encoder.go:170-185 | to each coder, what an encoder and everybody else does is a run of the publication protocol |
| EncoderCache.CacheIsTransparent | internal/coder/encoder.go:54-70 | from a new encoder, through any pooled reuse and among any other goroutines' steps: a codec it has cached and any codec any lookup of the type has given write, once resolved, the same bytes and error for every value, at any later time; an unresolved one is the other or about to be resolved to it |
| EncoderCache.CachedMeaning | internal/coder/encoder.go:170-185 | so what is written with a cached codec is what the type defines, or the beginning of it before a wait |
| EncoderCache.EvictedOnFourthMiss | internal/coder/encoder.go:177-182 | with no change of coder an entry stays in its slot while three more are made, and the fourth evicts it |
| EncoderCache.Encoder.ResetTo | internal/coder/encoder.go:54-70 | the new state: the cache is emptied exactly on a change of coder, the slot counter kept |
| EncoderCache.Encoder.EncodeValue | internal/coder/encoder.go:170-185 | the scan gives the cached codec and changes nothing; otherwise what `getBaseCodec` gave replaces the oldest entry |
| Streams.Reader.ReadFull | internal/coder/decoder.go:50-54 | filling a buffer takes the same bytes and ends with the same error however the stream is cut into chunks |
| Streams.Decoder.DecodeFixedOpaque | internal/coder/decoder.go:120-134 | fills the buffer, drops the padding whatever it holds, and agrees with the specification on results, errors and bytes left |
| Streams.Decoder.DecodeOpaque | internal/coder/decoder.go:101-118 | the length check, the early return and the dropped error agree with the specification |
| Streams.Decoder.Decode | internal/coder/codec_array.go:99-106 | the decode loops, reading from a chunked stream, give the value, error and leftover that the specification gives for the bytes alone |
| Streams.Decoder.DecodeEntries | internal/coder/codec_map.go:86-102 | inserting entries as they come leaves the merged map |
| Streams.ChunkingIndependence | internal/coder/decoder.go:29-134 | two streams of the same bytes cut differently decode alike and leave the same bytes |
| Streams.ReadsThenClose | internal/coder/opaquereader.go:16-38 | any reads followed by one close take exactly the length rounded up to four, and the reads returned a prefix of the body |
| Streams.DrainedIsFixed | internal/coder/opaquereader.go:16-38 | draining and closing gives what `DecodeFixedOpaque` gives |
| Streams.StreamingAgrees | internal/coder/decoder.go:84-118 | the streaming reader for variable-length data agrees with `DecodeOpaque` on body, leftover and the length error |
| Streams.SecondClose | internal/coder/opaquereader.go:34-38 | closing twice is harmless exactly when there is no padding or nothing follows |
| Streams.OpaqueReader.Read | internal/coder/opaquereader.go:26-28 | a read moves stream and counter as specified, and reports the end only at the limit or the end of the stream |
| Streams.OpaqueReader.Close | internal/coder/opaquereader.go:34-38 | the discarding loop takes everything up to the raised limit, in any chunks |
| Writers.ShiftedBytes | internal/coder/encoder.go:72-79 | the shifted and truncated bytes of any integer spell its two's complement word |
| Writers.ShiftedHyper | internal/coder/encoder.go:93-104 | the high and low words of any integer's 64-bit two's complement |
| Writers.Encoder.EncodeInt | internal/coder/encoder.go:72-79 | appends the word, through the scratch buffer |
| Writers.Encoder.EncodeHyper | internal/coder/encoder.go:93-104 | appends the hyper, through the scratch buffer |
| Writers.Encoder.EncodeFixedOpaque | internal/coder/encoder.go:121-129 | appends the bytes and zeros up to a multiple of four |
| Writers.Encoder.EncodeOpaque | internal/coder/encoder.go:110-119 | length, bytes and padding, or the length error with nothing written |
| Writers.Encoder.Encode | internal/coder/codec_array.go:173-189 | the encode loops append the specified bytes and stop with the specified error, for every value |
| Writers.Encoder.EncodeUnion | internal/coder/codec_struct.go:181-216 | switch, then the selected arm, or the undefined-arm error after the switch |
| Memory.LoadedIsStored | internal/coder/codec_primitive_unsafe.go:14-60 | a scalar of any type is read back from the two's complement bits it is stored as |
| Memory.StoredInWidth | internal/coder/codec_primitive_unsafe.go:14-60 | and those bits are the value's low 8, 16, 32 or 64, as its type has it |
| Memory.HoldsKept | internal/coder/codec_array_unsafe.go:36-115 | memory goes on holding a value while its own cells and what is behind its pointers and slices stay as they are |
| Landing.TouchesInside | internal/coder/codec_struct_unsafe.go:86-94 | the cells a decode writes lie inside its own target |
| Landing.FieldStep | internal/coder/codec_struct_unsafe.go:58-62 | decoding one more field at its offset leaves the earlier fields, and what is behind them, in place |
| Landing.ItemStep | internal/coder/codec_array_unsafe.go:45-52 | decoding one more element a stride further leaves the earlier elements in place |
| Unsafe.Encode | internal/coder/codec_struct_unsafe.go:76-84 | over memory that holds a value, the offset-based codecs write the bytes and give the error of the reflective form |
| Unsafe.EncodeUnion | internal/coder/codec_struct_unsafe.go:108-141 | reading the switch's cell as a bool, or aliasing its bits as an unsigned word whatever its sign, selects the arm the reflective form selects |
| Unsafe.SwitchWordIsKey | internal/coder/codec_struct_unsafe.go:114-123 | the word so read is the case key of the value the cell holds |
| Unsafe.Decode | internal/coder/codec_struct_unsafe.go:86-94 | the offset-based codecs take the same bytes, give the same error, and on success leave memory holding the same value, having written only cells that value covers and fresh allocations; on failure only the target's own cells |
| Unsafe.DecodeSlice | internal/coder/codec_array_unsafe.go:88-115 | the header points at fresh cells a stride apart that hold the decoded elements |
| Unsafe.DecodeUnion | internal/coder/codec_struct_unsafe.go:143-176 | switch and selected arm land in place |
| Unsafe.InactiveArmsKept | internal/coder/codec_struct_unsafe.go:143-176 | the cells of every other arm are as they were |
| Laid.CompiledIsLaid | internal/coder/codec_struct_unsafe.go:26-38 | for every layout of the types with elements a stride apart and fields in order without overlap, the compiled graph satisfies the premises of the offset-based codecs |
| Laid.TypesCanBeLaid | internal/coder/codec_struct_unsafe.go:26-38 | such a layout exists for every table in which no type holds itself by value |
| InMemory.CopyOver | internal/coder/coder.go:254-271 | encoding from one place in memory and decoding at another, over a stream cut in any way, fails exactly when the value does not encode, and otherwise leaves its canonical form at the target |
| InMemory.CopyCompiled | internal/coder/coder.go:254-271 | the same for the compiled codec of any type and tag, and any layout of the types |

## Left out

- Bodies of `Marshaler` implementations and of registered codecs: arbitrary foreign code. Registration itself is in `Protocol`, `Handles` and `EncoderCache.CacheIsTransparent`; `Interleaved` and `EncoderCache.CachedMeaning` exclude it.
- In builds with `unsafe`, a codec registered bare would fail the type assertion of the next lookup (internal/coder/coder.go:123); registration is modelled for the `nounsafe` definition of `xCodec`.
- Reflection, the garbage collector and real addresses: a table of types, value trees, and memory with one cell for each scalar, string, pointer, header and interface.
- Floating-point values: only their bit patterns, by which map keys are compared too, so that the keys +0 and -0, equal in Go, are two; NaN map keys and the conversions between float widths in the reflective path.
- Nil and empty slices, and nil and empty maps, are not told apart.
- A reflective opaque codec over `int8` elements panics in Go's own slice conversion; the model treats both byte kinds alike.
- Cyclic values (pointer loops) and pointer-typed map keys.
- The 32-bit platform limits (`maxInt` capping, `ErrLengthExceedsPlatformLimit`); `int` has 64 bits here.
- `sync.Pool`, `bufio`, and the `Marshal`, `Unmarshal`, `Read`, `Write` wrappers; of the pool only that an encoder comes back with its coder and cache.
- Failing writers; writes succeed.
- Error messages, `XDRTag.String`, and trimming, splitting and number parsing of tag strings: a tag is a list of parts already split.
- A panic on an unsupported switch kind, beyond saying when it happens and what it leaves behind: the compiler is specified for tables without such switches, and a goroutine that recovers from the panic and goes on with something else is not modelled.
- Shadowed and embedded fields reached by more than one index, on which `makeField` panics.
- Unsafe.Decode: what a failed decode leaves in the target's own cells is not specified; an opaque array is filled after it has been read whole.
- Unsafe.Encode: maps have no offset-based form in the source, so they are one cell here, handled by the reflective codec.
- Visited.CanonIff: codecs that reach no map; with maps, entries may merge, and `Maps.EntriesSurviveIff` says when.
- Normalise.NormalisationLaw: codecs that reach no map, because a re-encoded map comes in an order of its own.
- Compiler.Coder.GetCodec: one goroutine; several are in `Protocol`, where a codec is the list of the codecs its build was given.
