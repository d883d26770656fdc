# Rafiki: a verified model of its protocols and generators

This Dafny project models the parts of Rafiki whose correctness is hardest to see from any one function, and proves for all inputs, runs and schemas what they are for. `dafny verify dfyconfig.toml` checks it.

- **The Python codec generator** (`protoc-gen-rafikipy`) is a compiler: descriptors go in, Python classes come out. `Proto` holds the descriptors, `Registry` and `Render` the generator, `Py` the generated Python: expressions, statements, class bodies run in order, calls of a class, module loading, with an evaluator for all of them. `Schema` says what a schema means, independently of the generator. `Codec`, `Statements`, `ObjectCodec` and `RoundTrip` prove the generated codec, `Wire` that it writes the wire form the proto types call for, `Decoding` what it reads besides, `Json` what JSON text does to a value in between; `Bodies`, `Safety` and `Loading` what names do to it; `Names`, `Entries`, `Enums` and `Links` the name resolution; `Generator` states the theorems and `Exactness` proves their conditions exact. `Example` and `Tally` take small requests (`SingleFile`) through it all. `Decimal`, `Base64` and `Duration` are the generated helpers; `Wrappers` and `Text` are shared.
- **The webhook gateway.** `Dedup` is the bounded map with a time to live and oldest-first eviction, as a class with a ghost history; `Gateway` the requests that use it concurrently, as a state machine; `Interpolate` the key templates.
- **Scripted Claude runs.** `ClaudeScript` validates a script and plans its sessions; `ClaudeTurns` drives one session over a stream of output lines, timers and failures.
- **Descendants and the completion cache.** `Cascade` is the bounded walk up the parent links; `CompletionCache` the write-temp, rename, read and drop protocol over a directory of inodes.
- **Two text transformations.** `MountSpec` parses sandbox mounts; `UnitFile` reads and swaps the program of a systemd unit.

A loop of the source is a method with invariants, proved against a function or a predicate; in-place maps are class fields. Clocks, the network, the daemon, the file system and the child process are parameters or nondeterministic steps.

## The codec theorem

A request is the files protoc hands over and the names of those to generate, *any* of them. It is *well-formed* (`Generator.WellFormed`) when it is what protoc and the naming convention let through: distinct module names; and, in the files to generate, distinct names in each scope, attributes, wire keys and oneofs; names that are identifiers of the protobuf language, top-level classes in CamelCase; enums with values; no proto2 group; file names without quotes or backslashes, in any script otherwise.

A well-formed request is *safe* (`Generator.Safe`) when

- it asks, with a file, for every file its fields refer to (`Generator.Closed`), the google/protobuf ones aside;
- the module of every file to generate can be named in an import statement (`Py.Nameable`): it is a Python identifier and its own normal form NFKC. Which characters outside ASCII are letters is the interpreter's business, so the theorems hold for every table that keeps to ASCII where ASCII decides;
- no class at any depth has a Python keyword for its name, and no top-level class is called `ValueError` where a message of the file has a oneof;

and when, in every message,

- no repeated or map field comes after an attribute called `dataclasses`, no repeated field after one called `list`, no map field after one called `dict`;
- no attribute is called `classmethod`, `to_dict`, `from_dict` or like a nested class;
- no nested class is called `to_dict` or `from_dict`, and no nested message comes after an attribute or nested class called `dataclasses`;
- every real oneof has at least two arms.

`Exactness.CodecWorksExactly` proves that the generated package works *if and only if* the request is safe and declares no fixed32 or fixed64 field. It works when every module can be imported by name and every value of every message, with datetimes that have a reading in UTC, round-trips: to_dict raises ValueError exactly on a oneof set twice, and otherwise writes the wire form of the value, from which from_dict gives it back, directly and, with text for its map keys, through JSON text. `Exactness.ImportableExactly` has the exact condition for the first half alone. The *wire form* (`Wire.ObjectWire`) is defined by proto types and names no part of the generator: 64-bit integers are decimal text, bytes base64 text, floats that are no number or infinite their names, times their text, all other scalars themselves; lists, maps and objects go element by element, an object under the JSON names of its present fields.

## Findings

Each is a theorem about the code as it is.

- The names and oneofs listed above break the generated code. `Example.PageFails` is one input, a list field called `list` before another list field, and `Example.PageRaises` shows that its from_dict always raises TypeError. A dot in a file's name makes a module that no import statement can name (`Example.DottedFails`). A oneof with a single arm is checked by iterating the arm's value, since `(self.a)` is no tuple: with the arm unset, to_dict raises (`Exactness.SingleArmUnset`).
- `fixed32` and `fixed64` fields are taken for messages, since `scalarKind` does not list them. An unset one is None and harmless; to_dict raises when one is set, or holds elements, anywhere in the value (`Generator.EncodesExactly`), and from_dict raises NameError on its key (`Generator.FixedWidthDecodes`).
- The round trip is the identity exactly on values whose datetimes are in UTC and whose plain floats are not -0.0 (`Generator.CodecIdentity`). A datetime whose offset takes it out of years 1 to 9999 in UTC cannot be encoded; its local reading is then less than a day from an end of that range (`Codec.StampFails`).
- Map keys are not converted. Through JSON text a value comes back, up to normal form, exactly when every map key in it is a string (`Generator.JsonTextExact`); other keys come back as their text. `Tally.KeysBecomeText` is one `map<int32, string>`: the key 1 returns as "1".
- A cap below one does not hold: the id just recorded stays (`Dedup.CapHoldsExactly`).
- A process that writes one more line after its last result is killed at the timeout although it ended: the reader is stuck handing the line over (`ClaudeTurns.LeftoverLines`, used by `ClaudeTurns.RunTurns`).
- A drop of a cache entry whose removal fails is silent: `CompletionCache.FailedDropIsOutlived` is a run in which a later read hits the old entry, and `CompletionCache.DropHoldsExactly` says when one can.
- `replaceUnitExecStart` keeps the old program as an argument when a space follows `ExecStart=` (`UnitFile.SpacedKeepsOld`, `UnitFile.SpacedExample`), and the getter can read an indented line that the setter passes by (`UnitFile.GetAfterSet`, `UnitFile.ShadowedExample`).
- The comment on `interpolate` says a stray brace leaves the hole empty; the code copies an unclosed brace and all that follows (`Interpolate.EveryTemplate`).
- The last default branch of `parseSandboxMount` is dead (`MountSpec.SourceErrors`).

## Model

| member | source | states |
|---|---|---|
| `Exactness.CodecWorksExactly` | cmd/protoc-gen-rafikipy/render.go:50-118 | for every well-formed request, whatever files it asks for, and the package generated from it: every module can be imported by name and every value of every message type whose datetimes have a UTC reading is written in its wire form and read back, directly and, with text for map keys, through JSON text, if and only if the request is safe and declares no fixed32 or fixed64 field |
| `Exactness.ImportableExactly` | cmd/protoc-gen-rafikipy/render.go:50-118 | every module can be imported by name if and only if the request asks for all it refers to and, in every file it asks for, the module's name can be imported, no class has a keyword's name and every class body runs |
| `Generator.CodecBehaves` | cmd/protoc-gen-rafikipy/render.go:571-741 | for every safe request, every message type and every well-typed value tree: a set fixed32 or fixed64 field, or a datetime out of range in UTC, makes to_dict raise; else to_dict raises ValueError exactly when some oneof in the tree has two set arms; otherwise its keys are exactly the JSON names of the present fields, each holding the wire form of its proto type, from_dict of it is the value, normalised, and from_dict of its JSON text the same with text for map keys |
| `Generator.CodecRoundTrips` | cmd/protoc-gen-rafikipy/render.go:571-741 | the same for values without set fixed-width fields and with datetimes in range: ValueError exactly on a oneof set twice, exactly the present keys, and the value back |
| `Generator.CodecIdentity` | cmd/protoc-gen-rafikipy/render.go:571-741 | the round trip returns the very same value if and only if every datetime is in UTC and no plain float is -0.0 |
| `Generator.EncodesExactly` | cmd/protoc-gen-rafikipy/render.go:457-487 | to_dict succeeds if and only if no oneof is set twice, no fixed32 or fixed64 field is set, or non-empty, and every datetime is in range in UTC, anywhere in the value |
| `Generator.ToDictExact` | cmd/protoc-gen-rafikipy/render.go:571-741 | to_dict of every encodable value yields its wire form by proto type, recursively through lists, maps and objects, and nothing else is one |
| `Generator.JsonTextExact` | cmd/protoc-gen-rafikipy/render.go:571-741 | for every value without a oneof set twice that encodes: to_dict, JSON text and from_dict give the value back, normalised, with the text of its map keys for keys; so the normalised value itself if and only if every map key in the tree is a string |
| `Generator.FixedWidthDecodes` | cmd/protoc-gen-rafikipy/render.go:491-500 | from_dict of such a field raises NameError on any value on the wire, unless the module has a class UNKNOWN |
| `Decoding.EmptyDecodes` | cmd/protoc-gen-rafikipy/render.go:732-741 | an object with none of a message's keys, or only nulls for them, decodes to every field at its default: empty, None, or the proto3 zero, for an enum the name of its first zero value |
| `Decoding.OnlyFieldsRead` | cmd/protoc-gen-rafikipy/render.go:732-741 | from_dict ignores unknown keys and takes null for a missing one |
| `Decoding.IntInExact` | cmd/protoc-gen-rafikipy/render.go:142-156 | an integer field reads numbers and decimal text alike, floats toward zero and bools as 0 and 1; a NaN raises ValueError, an infinity OverflowError, anything but text and numbers TypeError |
| `Decoding.FloatInExact` | cmd/protoc-gen-rafikipy/render.go:168-181 | a float field reads numbers and the three names; a bool, as anything else, raises TypeError |
| `Generator.NamesResolve` | cmd/protoc-gen-rafikipy/render.go:259-318 | every class path a generated from_dict names, fixed-width fields aside, resolves to a class of the same module or of an imported sibling, emitted at exactly that path and declared under the proto name the field spells |
| `Generator.GeneratedLinks` | cmd/protoc-gen-rafikipy/main.go:72-97 | when the request asks for every file it refers to, the generated program has, for every message of those files, the code rendered for it, every class that code names is the one the schema means, and the time helpers it calls are in its module |
| `Generator.AcceptsDeclared` | cmd/protoc-gen-rafikipy/main.go:246-275 | a file is accepted exactly when everything its fields name is a message, enum or map entry declared somewhere in the request, or a time type |
| `Safety.BodyMeansExactly` | cmd/protoc-gen-rafikipy/render.go:293-318 | a generated class keeps its methods and a call of it makes every attribute its default exactly when the names in its message are safe and the nested bodies run |
| `Safety.BodyExact` | cmd/protoc-gen-rafikipy/render.go:293-318 | a class body runs, with the real decorators and factories, exactly when no name in it hides dataclasses or classmethod where they are used and every nested body does |
| `Safety.CallExact` | cmd/protoc-gen-rafikipy/render.go:508-521 | a call of the class makes every default exactly when no attribute hides a later factory and none is called like a method or nested class |
| `Loading.ScopeParses` | cmd/protoc-gen-rafikipy/render.go:280-318 | the class statements of a scope parse exactly when no class in it, at any depth, is called like a keyword |
| `Loading.ScopeRuns` | cmd/protoc-gen-rafikipy/render.go:293-318 | the class bodies of a scope run exactly when no message in it, at any depth, hides what its class body uses |
| `Exactness.HiddenFactoryRaises` | cmd/protoc-gen-rafikipy/render.go:508-521 | a repeated or map field after an attribute called list or dict: every from_dict of the message raises TypeError |
| `Exactness.HiddenErrorFails` | cmd/protoc-gen-rafikipy/render.go:703-716 | in a module with a class called ValueError, a message with a oneof has a value with two set arms, all its datetimes in range, for which to_dict does not raise ValueError |
| `Exactness.SingleArmExact` | cmd/protoc-gen-rafikipy/render.go:703-716 | the check of a single-arm oneof passes exactly when the value is text or bytes of at most one element, and raises otherwise |
| `Exactness.SingleArmUnset` | cmd/protoc-gen-rafikipy/render.go:703-716 | a message with a single-arm oneof does not encode while the arm is unset |
| `Exactness.FixedNeverWorks` | cmd/protoc-gen-rafikipy/render.go:457-487 | a message with a fixed32 or fixed64 field has a conflict-free value, all its datetimes in range, that to_dict cannot encode |
| `Example.NodesRoundTrip` | cmd/protoc-gen-rafikipy/render.go:571-741 | a schema with a message that refers to itself is well-formed and safe, and every linked list of its values survives the codec unchanged |
| `Example.PageFails` | cmd/protoc-gen-rafikipy/render.go:508-521 | a message with list fields called list and tags, in this order: its schema is well-formed and generates, and the package does not work |
| `Example.PageRaises` | cmd/protoc-gen-rafikipy/render.go:508-521 | every from_dict of that message raises TypeError |
| `Example.DottedFails` | cmd/protoc-gen-rafikipy/main.go:110-124 | a request with the one file node.v1.proto is well-formed and generates, and its module cannot be imported by name |
| `Tally.KeysBecomeText` | cmd/protoc-gen-rafikipy/render.go:589-634 | a schema with a map<int32, string> is well-formed and safe; every one-entry value survives to_dict and from_dict, and comes back from JSON text keyed by the number's text |
| `RoundTrip.ObjectRoundTrip` | cmd/protoc-gen-rafikipy/render.go:571-741 | the round trip, by induction over the value tree, for any program whose classes are the rendered ones and run as meant |
| `ObjectCodec.ObjectRaises` | cmd/protoc-gen-rafikipy/render.go:702-725 | a conflict in the object or below, and no set fixed-width field, makes the body of to_dict raise ValueError |
| `ObjectCodec.ObjectStuck` | cmd/protoc-gen-rafikipy/render.go:683-725 | a set fixed-width field in the object or below makes it raise |
| `Wire.ObjectWritten` | cmd/protoc-gen-rafikipy/render.go:683-725 | to_dict of every well-typed object without a conflict and without anything stuck is its wire form, by induction over the value tree, for any program whose classes are the rendered ones and run as meant |
| `Wire.ObjectUnique` | cmd/protoc-gen-rafikipy/render.go:683-725 | a value has at most one wire form |
| `ObjectCodec.ObjectDecodes` | cmd/protoc-gen-rafikipy/render.go:732-741 | from a fresh object, the body of from_dict rebuilds the attributes from the wire form |
| `ObjectCodec.TextDecodes` | cmd/protoc-gen-rafikipy/render.go:732-741 | from the JSON text of the wire form, it rebuilds them with text for map keys |
| `Statements.CountArms` | cmd/protoc-gen-rafikipy/render.go:702-725 | the generated count of set arms exceeds one exactly when two fields of the group are set |
| `Codec.ScalarCodec` | cmd/protoc-gen-rafikipy/render.go:607-624 | a value of any scalar type but fixed32 and fixed64 is written as its proto type demands, 64-bit integers as decimal text, bytes as base64 and floats that are no number by name, and reads back as it was |
| `Codec.TimeCodec` | cmd/protoc-gen-rafikipy/render.go:607-681 | the same for Timestamp and Duration, the datetime in UTC |
| `Codec.StampCodec` | cmd/protoc-gen-rafikipy/render.go:190-199 | a datetime, by its local reading and its zone, comes back in UTC at the same instant when that instant is in range, and raises OverflowError otherwise |
| `Codec.StampFails` | cmd/protoc-gen-rafikipy/render.go:190-199 | encoding raises exactly for an aware datetime whose local reading lies within its offset of an end of the range |
| `Json.JsonKeeps` | cmd/protoc-gen-rafikipy/render.go:626-634 | JSON text keeps a value exactly when every map key in its tree is a string |
| `Codec.ListCodes` | cmd/protoc-gen-rafikipy/render.go:571-605 | list comprehensions code elementwise, raising exactly when an element does |
| `Codec.DictCodes` | cmd/protoc-gen-rafikipy/render.go:571-605 | dict comprehensions code valuewise, under the same keys directly and under their text through JSON, raising exactly when a value does |
| `Generator.Run` | cmd/protoc-gen-rafikipy/main.go:72-97 | the generator fails on the first file that is missing, unresolved or panics, and otherwise yields one module per requested file |
| `Statements.EachFieldOnce` | cmd/protoc-gen-rafikipy/render.go:683-725 | the plain pass and the oneof pass together emit each field exactly once, whatever the oneofs |
| `Render.ResolveFields` | cmd/protoc-gen-rafikipy/render.go:332-358 | the loop yields each field's attribute, wire key, kind, oneof and presence, or panics on a map of messages |
| `Render.RenderToDict` | cmd/protoc-gen-rafikipy/render.go:683-725 | the two loops emit the plain statements and then each oneof group once, in order of first arm |
| `Render.RenderFromDict` | cmd/protoc-gen-rafikipy/render.go:732-741 | one load per field, in order |
| `Render.CollectDeps` | cmd/protoc-gen-rafikipy/render.go:259-276 | the recursive walk adds to the set exactly the sibling modules the message tree refers to |
| `Registry.Builder.AddEnum` | cmd/protoc-gen-rafikipy/main.go:216-230 | records the class and the name of the first value numbered 0, or "" where there is none, and nothing else |
| `Registry.Builder.AddMessage` | cmd/protoc-gen-rafikipy/main.go:181-207 | records a message, its nested messages, map entries and enums, each under its scope |
| `Registry.BuildRegistry` | cmd/protoc-gen-rafikipy/main.go:155-179 | fills the maps from every file but the google/protobuf ones |
| `Registry.FindEntryValue` | cmd/protoc-gen-rafikipy/main.go:190-198 | the value field of a map entry is the last one numbered 2, and absent exactly when no field is |
| `Names.RegistrySound` | cmd/protoc-gen-rafikipy/main.go:155-207 | every recorded class is declared at that path of that module under that very proto name; one that is no enum is a message |
| `Names.RegistryExact` | cmd/protoc-gen-rafikipy/main.go:155-244 | the registry's names are exactly the names declared in the request |
| `Proto.FqSpells` | cmd/protoc-gen-rafikipy/main.go:232-244 | a full name is the package and the path, each after a dot |
| `Proto.ModuleNameIs` | cmd/protoc-gen-rafikipy/main.go:108-124 | the module of a file is its base name, in whatever directory, with _pb for its suffix |
| `Links.CheckFileExact` | cmd/protoc-gen-rafikipy/main.go:246-275 | checkFile accepts exactly when every reference of every message, nested ones included, resolves |
| `Links.UnresolvedIsNamed` | cmd/protoc-gen-rafikipy/main.go:246-275 | the error names a declared message by its full name, and a field of it with a type that resolves to nothing |
| `Links.ImportsCover` | cmd/protoc-gen-rafikipy/render.go:259-276 | the module of every field of every rendered message is among the imports |
| `Links.ImportsExact` | cmd/protoc-gen-rafikipy/render.go:259-276 | a module imports exactly the sibling modules that fields of its messages refer to |
| `Links.TimeExact` | cmd/protoc-gen-rafikipy/render.go:431-455 | the time helpers are emitted exactly when a field of some rendered message uses a time type, alone or in a list or map |
| `Entries.EntriesExact` | cmd/protoc-gen-rafikipy/main.go:188-203 | the registry's map entries are exactly the synthetic messages declared in the request, each with the last field numbered 2 of one declared under that name |
| `Enums.EnumsExact` | cmd/protoc-gen-rafikipy/main.go:209-230 | the registry has a zero for exactly the enums declared in the request, the name of the first value numbered 0 of one declared under that name, or "" where it has none |
| `Enums.ZeroIsDeclared` | cmd/protoc-gen-rafikipy/main.go:209-230 | the zero of an enum field, which decides its presence and default, is that declared value |
| `Duration.DurRoundTrip` | cmd/protoc-gen-rafikipy/render.go:228-254 | _dur_in of _dur_out is the identity on every timedelta, for every interpreter |
| `Duration.DurOutShape` | cmd/protoc-gen-rafikipy/render.go:228-238 | the text has a sign exactly when negative, whole seconds without leading zeros and up to six digits of fraction without trailing zeros, together exactly the microseconds |
| `Duration.DurInExact` | cmd/protoc-gen-rafikipy/render.go:240-254 | an accepted text with a fraction of any length, in decimal digits of any script, yields its exact value truncated toward zero to microseconds, sign kept |
| `Duration.DurInAccepts` | cmd/protoc-gen-rafikipy/render.go:240-254 | whatever the interpreter's digit tables and limit, a text is refused with ValueError exactly when it spells no duration |
| `Duration.OtherScripts` | cmd/protoc-gen-rafikipy/render.go:240-254 | digits of another script are read: an Arabic-Indic three is three seconds |
| `Links.EmittedAt` | cmd/protoc-gen-rafikipy/render.go:293-318 | every declared message is emitted at exactly its path |
| `Base64.B64RoundTrip` | cmd/protoc-gen-rafikipy/render.go:123-139 | decoding gives the bytes back from their encoding with any of '+' and '/' swapped for the URL-safe letters and any number of trailing '=' removed |
| `Base64.DecodeEncode` | cmd/protoc-gen-rafikipy/render.go:123-139 | strict decoding inverts encoding |
| `Base64.EncodeBits` | cmd/protoc-gen-rafikipy/render.go:123-125 | the text, read as base-64 digits, is the bytes read as base-256 digits, filled with zero bits to whole characters (section 4 of RFC 4648) |
| `Base64.AlphabetIs` | cmd/protoc-gen-rafikipy/render.go:123-139 | the characters are those of table 1 of RFC 4648, both ways |
| `Base64.DecodeExact` | cmd/protoc-gen-rafikipy/render.go:128-139 | strict decoding takes exactly the alphabet in groups of four with at most two characters of padding, and yields the bytes of its bit stream |
| `Base64.B64InAccepts` | cmd/protoc-gen-rafikipy/render.go:128-139 | _b64_in takes exactly the texts of either alphabet that lack no more than two characters of padding, and raises ValueError otherwise |
| `Duration.MicrosTruncates` | cmd/protoc-gen-rafikipy/render.go:252-253 | the nine-digit window computes the truncated exact value |
| `Decimal.IntTextRoundTrip` | cmd/protoc-gen-rafikipy/render.go:142-156 | reading the decimal text of any integer gives it back |
| `Decimal.IntTextShape` | cmd/protoc-gen-rafikipy/render.go:609-610 | the decimal text of an integer is a sign on negatives and canonical digits |
| `Decimal.CanonicalUnique` | cmd/protoc-gen-rafikipy/render.go:609-610 | a number has one text without leading zeros |
| `Decimal.ParseIntExact` | cmd/protoc-gen-rafikipy/render.go:142-156 | a text reads as n exactly when it is a sign or none, then digits that spell n |
| `Dedup.Memory.constructor` | cmd/rafiki-hooks/dedup.go:33-39 | an empty memory with a day to live and room for ten thousand ids |
| `Dedup.Memory.Probe` | cmd/rafiki-hooks/dedup.go:83-93 | reports present and unexpired, drops exactly an expired entry, keeps the invariant |
| `Dedup.Memory.Contains` | cmd/rafiki-hooks/dedup.go:62-69 | as Probe; the empty id is never present and changes nothing |
| `Dedup.Memory.Record` | cmd/rafiki-hooks/dedup.go:72-79 | as RecordLocked; the empty id is never stored |
| `Dedup.Memory.Seen` | cmd/rafiki-hooks/dedup.go:43-54 | probes and records in one step |
| `Dedup.Memory.RecordLocked` | cmd/rafiki-hooks/dedup.go:97-125 | the id is present with its reading, the cap holds, as few as necessary are evicted, and each victim is no newer than any survivor but the id itself |
| `Dedup.Memory.Sweep` | cmd/rafiki-hooks/dedup.go:98-104 | drops exactly the expired entries |
| `Dedup.Memory.Evict` | cmd/rafiki-hooks/dedup.go:106-124 | terminates and removes oldest entries, never the one just recorded, down to the cap |
| `Dedup.Memory.Oldest` | cmd/rafiki-hooks/dedup.go:107-119 | finds the oldest entry other than the id, and "" exactly when there is none |
| `Dedup.RecordExplained` | cmd/rafiki-hooks/dedup.go:97-125 | after a record, every entry is its id's last record, and a last record that is no entry has expired or was crowded out |
| `Dedup.ProbeExplained` | cmd/rafiki-hooks/dedup.go:83-93 | the same after a probe |
| `Dedup.Remembered` | cmd/rafiki-hooks/dedup.go:43-125 | with nondecreasing readings, a recorded id is a duplicate at every later time within the time to live, unless at least max other ids were recorded with readings no earlier |
| `Dedup.NeverInvented` | cmd/rafiki-hooks/dedup.go:43-125 | an id is a duplicate only if it was recorded within the time to live, whatever the clock did |
| `Dedup.CapHoldsExactly` | cmd/rafiki-hooks/dedup.go:97-125 | recording always leaves at most max entries if and only if max is at least one |
| `Gateway.StepInv` | cmd/rafiki-hooks/handler.go:113-152 | every step of every request keeps the protocol's invariant |
| `Gateway.RunInv` | cmd/rafiki-hooks/handler.go:113-152 | every state of every interleaving satisfies it |
| `Gateway.OkWasDelivered` | cmd/rafiki-hooks/handler.go:138-152 | a 200 "ok" is sent only after the daemon accepted that request's Notify |
| `Gateway.DuplicateWasDelivered` | cmd/rafiki-hooks/handler.go:113-119 | a 200 "duplicate" answers a probe that hit, and before that probe the daemon had accepted a Notify with the same non-empty id, within the time to live |
| `Gateway.FailureIsReported` | cmd/rafiki-hooks/handler.go:167-206 | a request whose Notify failed is answered 503 exactly for a transport failure, a cancellation or the verdicts unavailable and deadline exceeded, 422 exactly for not found, invalid argument and failed precondition, and 500 otherwise |
| `Gateway.ReplyExact` | cmd/rafiki-hooks/handler.go:67-152 | a request's answer is its last event; it is rejected exactly when nothing of it was logged, and otherwise answered as the one event that settled it demands: a hit, a body that is no JSON, no rule, an accepted or a failed Notify |
| `Gateway.RetryHits` | cmd/rafiki-hooks/handler.go:113-119 | a probe after a record of the id hits, unless the id was evicted in between or a record of it is a time to live old |
| `Gateway.DoubleDeliveryOverlaps` | cmd/rafiki-hooks/handler.go:113-152 | two accepted notifications for one id come from two requests, each of which recorded only after the other probed, unless that record was forgotten by then |
| `Gateway.SequentialOnce` | cmd/rafiki-hooks/handler.go:113-152 | a request that probes after another recorded the id delivers only if the id was forgotten in between |
| `Interpolate.Interpolate` | cmd/rafiki-hooks/rules.go:108-128 | the scanner terminates and computes the meaning of the template split into literals and holes |
| `Interpolate.SourceOfTokens` | cmd/rafiki-hooks/rules.go:108-128 | the literals and holes spell the template |
| `Interpolate.Homomorphic` | cmd/rafiki-hooks/rules.go:108-128 | interpolation distributes over concatenation when the first part leaves no brace open |
| `Interpolate.ClosedExactly` | cmd/rafiki-hooks/rules.go:108-128 | scanning leaves no brace open exactly when every '{' has a '}' after it |
| `Interpolate.UnclosedIsCopied` | cmd/rafiki-hooks/rules.go:116-121 | an unclosed brace and all that follows are copied |
| `Interpolate.EveryTemplate` | cmd/rafiki-hooks/rules.go:108-128 | every template is closed, or splits into a closed part and an unclosed brace with a rest that is copied |
| `ClaudeScript.Validate` | cmd/rafiki/claude_script.go:110-152 | accepts exactly the scripts whose runs all have turns, new names, an earlier run to resume that nobody resumed yet, a known interrupt and no argument that is a driver flag, alone or with a value; a refusal names the first problem in the order of the checks |
| `ClaudeScript.CheckFlags` | cmd/rafiki/claude_script.go:154-164 | answers false exactly when some argument is a driver flag or starts with one and '=' |
| `ClaudeScript.ExplainsUnique` | cmd/rafiki/claude_script.go:110-152 | a script has at most one first problem |
| `ClaudeScript.MakePlans` | cmd/rafiki/claude_script.go:196-232 | each plan has its run's session, resume and persist marks |
| `ClaudeScript.PlansAreSessions` | cmd/rafiki/claude_script.go:196-232 | for every accepted script and fresh ids: two runs share a session exactly when resume links connect them; a session's runs form one chain in file order whose first run alone does not resume; they are persisted exactly when there are two or more; the session is the operator's exactly when run one starts it and the operator named one, and else the one minted for the chain's first run |
| `ClaudeScript.ConnectedIsSameRoot` | cmd/rafiki/claude_script.go:110-152 | resume links connect two runs exactly when they lead back to the same first run |
| `ClaudeScript.SessionIsChain` | cmd/rafiki/claude_script.go:110-152 | the runs that lead back to one first run are exactly one chain |
| `ClaudeTurns.Await` | cmd/rafiki/claude_turns.go:221-256 | consumes lines that end no turn and stops at the first that does, an assistant message with a tool call anywhere in its content where that is asked for, at the timer or at the end of the output |
| `ClaudeTurns.RunTurns` | cmd/rafiki/claude_turns.go:77-174 | each prompt is written only after the previous turn's error-free result; a plain run succeeds exactly on a clean session, having consumed one result per turn; an interrupted one succeeds exactly when, before the last turn's result, an assistant message arrives with a tool call at some position of its content, having consumed one result fewer; every started process ends in exactly one kill-and-reap or Wait |
| `ClaudeTurns.Finish` | cmd/rafiki/claude_turns.go:147-173 | after the last turn, success exactly when nothing is left to read, the output ends without error in time and the process exits cleanly |
| `ClaudeTurns.HasToolUse` | cmd/rafiki/claude_turns.go:258-265 | the scan finds a tool call at any position of the content |
| `ClaudeTurns.LeftoverLines` | cmd/rafiki/claude_turns.go:113-125 | a line left after the last result rules out a clean end |
| `Cascade.EffectiveParents` | cmd/rafiki/output.go:401-418 | the map holds exactly the parent relation: the last listed child with an id and a listed parent decides, by its non-empty current label or else its old one |
| `Cascade.Climbs` | cmd/rafiki/cascade.go:89-99 | the walk cut off after one step per child finds the target exactly when some walk of any length does, cycles included |
| `Cascade.SubagentsOf` | cmd/rafiki/cascade.go:79-103 | returns the children that are no native subagents, nor exited where only live ones count, and have the target as an ancestor |
| `Cascade.SubagentsAre` | cmd/rafiki/cascade.go:79-103 | the result lists exactly the subagents, each once, in the order of the listing |
| `Cascade.ParentLabel` | cmd/rafiki/output.go:407-411 | a non-empty label of the current name wins over one of the old name, and no label is the empty string |
| `Cascade.ShortWalk` | cmd/rafiki/cascade.go:90-99 | a walk of any length can be shortened to one step per child at most |
| `Cascade.BeneathTransitive` | cmd/rafiki/cascade.go:79-103 | a descendant's descendants are descendants |
| `Cascade.UnlistedHasNone` | cmd/rafiki/output.go:401-418 | a target outside the listing has no subagents |
| `CompletionCache.StepInv` | cmd/rafiki/completioncache.go:56-117 | every step of every writer, reader and drop, failures and crashes included, keeps the invariant |
| `CompletionCache.HitIsLatestWrite` | cmd/rafiki/completioncache.go:56-70 | over every interleaving, a successful read answers with the value of one write for its key, the one most recently renamed into place when it opened the file, no older than the limit |
| `CompletionCache.DropHoldsExactly` | cmd/rafiki/completioncache.go:115-117 | a read that opens the file after a call of drop answers with an entry renamed into place before the call exactly when the removal failed and, until then, no other removal succeeded and nothing was renamed into place |
| `CompletionCache.DropHolds` | cmd/rafiki/completioncache.go:115-117 | after a drop whose removal worked, only what was renamed into place later is read |
| `CompletionCache.FailedDropIsOutlived` | cmd/rafiki/completioncache.go:115-117 | a run in which a removal fails and a read that starts after the drop hits the old entry |
| `CompletionCache.NeverCorrupt` | cmd/rafiki/completioncache.go:56-64 | a reader at the end of the file has the whole bytes of one write, which decode |
| `CompletionCache.MissExplained` | cmd/rafiki/completioncache.go:61-69 | such a reader misses exactly for age, a limit that is not positive or a payload its caller cannot use |
| `CompletionCache.NothingLeftBehind` | cmd/rafiki/completioncache.go:97-110 | with no crash and no failed removal, finished writers leave no temporary file |
| `CompletionCache.StoreLast` | cmd/rafiki/completioncache.go:82-117 | what the abstract store holds for a key is the last rename or drop of it |
| `MountSpec.ParseExact` | cmd/rafiki/cmd_sandbox.go:355-413 | the parser accepts a value with result m exactly when the value is the printed form of m and m is printable: ':' allowed in targets, '=' in sources and in targets that have one |
| `MountSpec.ParsePrint` | cmd/rafiki/cmd_sandbox.go:355-413 | what parses is the printed form of its result |
| `MountSpec.PrintParse` | cmd/rafiki/cmd_sandbox.go:355-413 | printing then parsing gives the mount back |
| `MountSpec.SourceErrors` | cmd/rafiki/cmd_sandbox.go:355-413 | two markers are refused as two sources and nothing else is; an unknown source is reported only where there is no marker |
| `MountSpec.ErrorExact` | cmd/rafiki/cmd_sandbox.go:355-413 | every refused value has exactly one fault, its head's before its source's, and the error names it with the kind or source found |
| `MountSpec.ParseAll` | cmd/rafiki/cmd_sandbox.go:328-341 | every value is the printed form of its mount, or the error is the first failing value's |
| `UnitFile.ReplaceUnitExecStart` | cmd/rafiki/cmd_service.go:421-436 | the scan computes the setter |
| `UnitFile.UnitExecStart` | cmd/rafiki/cmd_service.go:439-448 | the scan computes the getter |
| `UnitFile.SetFrame` | cmd/rafiki/cmd_service.go:421-436 | setting succeeds exactly when the first line with the key names a program, and rewrites that line alone, keeping what followed the program |
| `UnitFile.GetAfterSet` | cmd/rafiki/cmd_service.go:421-448 | reading after setting gives the new program, or the one of an earlier indented line when there is one |
| `UnitFile.SetAfterGet` | cmd/rafiki/cmd_service.go:421-448 | setting the program just read leaves the unit as it was exactly when that program stands right after the key of the line the setter works on |
| `UnitFile.SetSame` | cmd/rafiki/cmd_service.go:421-436 | setting any program changes nothing exactly when it is the current one and stands right after the key |
| `UnitFile.SetAfterSet` | cmd/rafiki/cmd_service.go:421-436 | the last setting wins, in every unit |
| `UnitFile.LensLaws` | cmd/rafiki/cmd_service.go:421-448 | on plain units all three lens laws hold and the arguments stay |
| `UnitFile.SpacedKeepsOld` | cmd/rafiki/cmd_service.go:427-432 | with a space after the key the whole old value follows the new program |
| `UnitFile.SpacedExample` | cmd/rafiki/cmd_service.go:427-432 | one such unit, where setting the current program doubles it |
| `UnitFile.ShadowedExample` | cmd/rafiki/cmd_service.go:439-448 | one unit where the program just set is not the one read |
| `UnitFile.SplitJoin` | cmd/rafiki/cmd_service.go:422-433 | splitting into lines and joining them gives the text back |
| `UnitFile.SpacesExact` | cmd/rafiki/cmd_service.go:421-448 | the characters trimmed and split at are those with Unicode's White_Space property |

## Left out

- Generator.CodecBehaves: takes the RFC 3339 text of a datetime as an inverse pair on UTC instants, because formatting and parsing it are Python's isoformat and fromisoformat; a finite float is a real number, so text and rounding of floats are not modelled.
- Generator.CodecBehaves: Python's recursion limit and memory are not modelled; a value nested deeper than the limit fails in to_dict.
- Exactness.CodecWorksExactly: speaks of well-formed requests; names that start with an underscore, which protoc lets through although the language has none, groups, top-level classes in lower case, and two files that want the same module are not covered. A module counts as importable when an import statement can name it; importlib takes any text.
- Generator.NamesResolve: takes from protoc that message fields name no enum and that names are distinct in their scope.
- Codec.ScalarCodec: integers are those of the field's proto type; other integer and float texts than a sign and ASCII digits are outside the model of from_dict.
- Dedup.Remembered: entries are keyed by delivery id alone, as in the source, so nothing is said per route.
- ClaudeScript.MakePlans: the model, prompt, tools, timeout and argument fields of a plan are settled by reading one branch each.
- ClaudeTurns.RunTurns: the bounded wait inside the kill, echoed text and error wording are not modelled; failing to open a pipe counts as failing to start.
- CompletionCache.HitIsLatestWrite: JSON is a parameter with the law that an entry made from a marshalled value reads back; hash collisions of cache paths and reused temporary names are assumed away.
- UnitFile.SetFrame: a unit is a sequence of characters; bytes that are no valid UTF-8 are not modelled.
- Text of generated Python: indentation, docstrings, annotations, enum constants and service constants.
- HTTP serving, HMAC verification, Connect clients, TLS, TOML and JSON decoding: outcomes of these are arbitrary steps or parameters.
- The payload reader behind templates and rule matching: a parameter of the interpolation.
- Plist editing, service installation, memory sizes, prices, completion handlers, setup and login flows, precedence helpers: easy or user interface.
- The daemon: it is not part of this model.
