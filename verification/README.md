# bleatkan core in Dafny

A model of bleatkan, a Kotlin client library for the veadotube mini avatar
program, and of the state and thumbnail cache the Touch Portal plugin built
on it keeps per connection. The model covers these parts:

- **Instance IDs** (`InstanceIds`, with `Hex`, `KotlinText` and `JvmNumbers`):
  - the `type-timestamp-process` file names veadotube writes;
  - their two constructors, format checks, string forms, equality, hash and ordering;
  - the radix-16 parsing and `%016x`/`%08x` formatting they rest on, with JVM
    Long/Int wrap-around and truncating division written out.
- **Instances** (`Instances`):
  - construction and validation;
  - the connection ID;
  - the WebSocket URI.
- **The instances manager** (`InstancesManagers`, `MapEviction`):
  - acceptance of an instance descriptor file;
  - the memoised file-name-to-ID map;
  - registration with its start and change events;
  - the checker's stale-instance sweep and shutdown;
  - `getInstance` and `markInstanceFailed`;
  - the loop delays.
- **Messages** (`RequestMessages`, `ResultMessages`, `Serializers`):
  - the request factories, enums, validators and JSON text of requests;
  - the result messages and their equality;
  - the polymorphic deserializer selection and decoding from a JSON tree.
- **The connection** (`Connections`):
  - splitting a received frame into channel and JSON body;
  - the receive pipeline;
  - `send` and `close`;
  - the watcher loop as a step function over connection attempts, with the
    events it reports to its listener.
- **The client** (`Clients`): its channel list and `send`/`close`.
- **The plugin's connection data** (`VeadoConnectionData`, with `LruMaps`):
  - the states by list and by ID;
  - the current state;
  - thumbnails and the hard and soft LRU tiers that keep them alive.

Object identity is modelled by an explicit store of references (`Ref`) for
states. The two LRU maps are sequences of entries in recency order.

Foreign behaviour becomes a function parameter:

- `Char.isLetter` and `Character.digit`, as the character tables `CharTables`;
- whether `java.net.URI` accepts a URI text;
- UTF-8 decoding;
- `URLEncoder.encode`;
- JSON text parsing into a tree;
- decoding a descriptor file into a `VtInstance`;
- the wall clock, as `now`.

Whatever cannot be expressed that way is listed under "Left out".

## Model

| member | source | states |
|---|---|---|
| MiscFunctions.ConvertFromUniversalTimeTicks | lib/src/main/kotlin/io/github/dissonantau/bleatkan/MiscFunctions.kt:30-32 | .NET ticks become Unix seconds by Long subtraction of the epoch offset (wrapping below the Long range) and division truncated toward zero |
| MiscFunctions.WholeSecondsRoundTrip | lib/src/main/kotlin/io/github/dissonantau/bleatkan/MiscFunctions.kt:31 | the tick count of every whole Unix second, before or after the epoch (the epoch itself is second 0), converts back to that second wherever the subtraction does not wrap |
| MiscFunctions.WholeSeconds | lib/src/main/kotlin/io/github/dissonantau/bleatkan/MiscFunctions.kt:31 | any tick in the k-th second after the epoch converts to k: sub-second ticks are dropped |
| MiscFunctions.TruncatesTowardZero | lib/src/main/kotlin/io/github/dissonantau/bleatkan/MiscFunctions.kt:31 | before the epoch the result rounds toward zero (one tick early is second 0), unlike floor division |
| MiscFunctions.Monotone | lib/src/main/kotlin/io/github/dissonantau/bleatkan/MiscFunctions.kt:31 | within the non-wrapping range a later tick count never converts to an earlier second |
| MiscFunctions.WrapsBelowRange | lib/src/main/kotlin/io/github/dissonantau/bleatkan/MiscFunctions.kt:31 | at Long.MIN_VALUE the subtraction wraps and the result is a positive second, later than the epoch |
| JvmNumbers.Wrap32 | lib/src/main/kotlin/io/github/dissonantau/bleatkan/instance/InstanceID.kt:174-179 | 32-bit Int arithmetic: the result is congruent to the exact value modulo 2^32 and equal to it inside the Int range |
| JvmNumbers.Wrap64 | bleatkan/lib/src/main/kotlin/io/github/dissonantau/bleatkan/instance/InstancesManager.kt:165 | 64-bit Long arithmetic: congruent modulo 2^64, exact inside the Long range |
| JvmNumbers.TruncDiv | lib/src/main/kotlin/io/github/dissonantau/bleatkan/MiscFunctions.kt:31 | JVM division: the quotient brackets the dividend from the zero side and has the dividend's sign |
| JvmNumbers.CompareNumbers | lib/src/main/kotlin/io/github/dissonantau/bleatkan/instance/InstanceID.kt:168-171 | Long.compareTo: zero, negative or positive exactly as the first number is equal, smaller or larger |
| JvmNumbers.TruncDivDiffersFromEuclidean | lib/src/main/kotlin/io/github/dissonantau/bleatkan/MiscFunctions.kt:31 | JVM division equals Euclidean division except for a negative dividend that the divisor does not divide, where it is one greater (-1/10 is 0, not -1) |
| KotlinText.Trim | lib/src/main/kotlin/io/github/dissonantau/bleatkan/instance/InstanceID.kt:77 | trim() gives the slice left after the leading whitespace, empty exactly for blank input, and otherwise starting and ending with a non-whitespace character |
| KotlinText.TrimNoSpace | lib/src/main/kotlin/io/github/dissonantau/bleatkan/instance/InstanceID.kt:77 | a text without surrounding whitespace is its own trim |
| KotlinText.IndexOf | bleatkan/lib/src/main/kotlin/io/github/dissonantau/bleatkan/connection/Connection.kt:680-697 | indexOf: -1 exactly when absent, otherwise the first position holding the element |
| KotlinText.Split | lib/src/main/kotlin/io/github/dissonantau/bleatkan/instance/InstanceID.kt:85 | split('-') returns at least one piece and no piece contains the delimiter |
| KotlinText.JoinSplit | lib/src/main/kotlin/io/github/dissonantau/bleatkan/instance/InstanceID.kt:85 | joining the pieces of split with the delimiter gives back the original text |
| KotlinText.Distinct | lib/src/main/kotlin/io/github/dissonantau/bleatkan/Client.kt:49-51 | distinct() keeps exactly the same elements, each once |
| KotlinText.DistinctFrom | lib/src/main/kotlin/io/github/dissonantau/bleatkan/Client.kt:49-51 | the elements not already seen, each once |
| KotlinText.DistinctFromOrder | lib/src/main/kotlin/io/github/dissonantau/bleatkan/Client.kt:49-51 | distinct() keeps the elements in the order of their first occurrence |
| KotlinText.Units | lib/src/main/kotlin/io/github/dissonantau/bleatkan/instance/InstanceID.kt:174-179 | a character is one UTF-16 code unit inside the Basic Multilingual Plane and otherwise two, a high surrogate first |
| KotlinText.UnitsInjective | lib/src/main/kotlin/io/github/dissonantau/bleatkan/instance/InstanceID.kt:174-179 | different characters have different UTF-16 encodings |
| KotlinText.Utf16Injective | lib/src/main/kotlin/io/github/dissonantau/bleatkan/instance/InstanceID.kt:168-179 | different strings have different UTF-16 unit sequences, so hashing and comparing units loses no information |
| KotlinText.Length | lib/src/main/kotlin/io/github/dissonantau/bleatkan/instance/InstanceID.kt:240-241 | String.length counts UTF-16 code units: never fewer than the characters, and equal exactly when none lies outside the Basic Multilingual Plane |
| KotlinText.CompareStrings | lib/src/main/kotlin/io/github/dissonantau/bleatkan/instance/InstanceID.kt:168-171 | String.compareTo, on UTF-16 code units, is zero exactly for equal strings |
| KotlinText.CompareStringsAntisymmetric | lib/src/main/kotlin/io/github/dissonantau/bleatkan/instance/InstanceID.kt:168-171 | swapping the operands of String.compareTo negates the result |
| KotlinText.HashCollision | bleatkan/lib/src/main/kotlin/io/github/dissonantau/bleatkan/message/ResultMessage.kt:126-133 | String.hashCode is not injective: "Aa" and "BB" collide |
| KotlinText.SurrogatePairHash | lib/src/main/kotlin/io/github/dissonantau/bleatkan/instance/InstanceID.kt:174-179 | String.hashCode works on code units: a supplementary character has length 2 and hashes as its surrogate pair, 31 * 0xD83D + 0xDE00 for U+1F600 |
| KotlinText.SurrogateOrder | lib/src/main/kotlin/io/github/dissonantau/bleatkan/instance/InstanceID.kt:168-171 | String.compareTo works on code units: U+E000 sorts after U+1F600, whose high surrogate is smaller |
| Hex.ParseSignedHex | lib/src/main/kotlin/io/github/dissonantau/bleatkan/instance/InstanceID.kt:91-99 | radix-16 parsing with an optional sign succeeds only on non-empty text and only within the target range, and an unsigned text that parses consists of Character.digit radix-16 digits whose value it denotes |
| Hex.ParseLongHex | lib/src/main/kotlin/io/github/dissonantau/bleatkan/instance/InstanceID.kt:91 | toLong(16) succeeds only on non-empty text, within the Long range, with the value of the digits Character.digit reads |
| Hex.ParseIntHex | lib/src/main/kotlin/io/github/dissonantau/bleatkan/instance/InstanceID.kt:99 | toInt(16) succeeds only on non-empty text, within the Int range, with the value of the digits Character.digit reads |
| Hex.FormatLongHex | lib/src/main/kotlin/io/github/dissonantau/bleatkan/instance/InstanceID.kt:186 | %016x prints exactly 16 lower-case hex digits, the two's-complement bits of the Long |
| Hex.FormatIntHex | lib/src/main/kotlin/io/github/dissonantau/bleatkan/instance/InstanceID.kt:186 | %08x prints exactly 8 lower-case hex digits, the two's-complement bits of the Int |
| Hex.FixedRoundTrip | lib/src/main/kotlin/io/github/dissonantau/bleatkan/instance/InstanceID.kt:91-99 | parsing a zero-padded hex rendering of an in-range number gives the number back |
| Hex.LongHexRoundTrip | lib/src/main/kotlin/io/github/dissonantau/bleatkan/instance/InstanceID.kt:91 | toLong(16) inverts %016x for every non-negative Long |
| Hex.IntHexRoundTrip | lib/src/main/kotlin/io/github/dissonantau/bleatkan/instance/InstanceID.kt:99 | toInt(16) inverts %08x for every non-negative Int |
| Hex.NegativeLongHexRejected | lib/src/main/kotlin/io/github/dissonantau/bleatkan/instance/InstanceID.kt:91 | %016x of a negative Long cannot be parsed back by toLong(16): the digits exceed Long.MAX_VALUE |
| Hex.NegativeIntHexRejected | lib/src/main/kotlin/io/github/dissonantau/bleatkan/instance/InstanceID.kt:99 | %08x of a negative Int cannot be parsed back by toInt(16) |
| Hex.HexValueOfFixed | lib/src/main/kotlin/io/github/dissonantau/bleatkan/instance/InstanceID.kt:186 | the fixed-width rendering denotes the number it renders |
| Hex.HexFixedOfValue | lib/src/main/kotlin/io/github/dissonantau/bleatkan/instance/InstanceID.kt:186 | rendering the value of a hex text at its own width gives its lower-case form, and the text itself when it is lower case |
| Hex.AsciiDigitsValue | lib/src/main/kotlin/io/github/dissonantau/bleatkan/instance/InstanceID.kt:91-99 | under the JDK digit table, ASCII hex text is read by Character.digit as its hexadecimal value |
| Hex.UnitDigit | lib/src/main/kotlin/io/github/dissonantau/bleatkan/instance/InstanceID.kt:91-99 | a UTF-16 unit is a radix-16 digit only inside the Basic Multilingual Plane, with the value the JDK digit table gives, between 0 and 15 |
| Hex.HexBmp | lib/src/main/kotlin/io/github/dissonantau/bleatkan/instance/InstanceID.kt:240-241 | ASCII hex text has one UTF-16 unit per character |
| InstanceIds.CheckParts | lib/src/main/kotlin/io/github/dissonantau/bleatkan/instance/InstanceID.kt:235-244 | the private format check fails exactly on the wrong number of parts, a timestamp not 16 UTF-16 units long, a process not 8 units long or a blank type, with the matching error |
| InstanceIds.CheckFormat | lib/src/main/kotlin/io/github/dissonantau/bleatkan/instance/InstanceID.kt:219-222 | the public format check accepts exactly the well-shaped dash-split of the trimmed text (lengths in UTF-16 units) and rejects blank text for its part count |
| InstanceIds.Parse | lib/src/main/kotlin/io/github/dissonantau/bleatkan/instance/InstanceID.kt:73-114 | the parsing constructor rejects exactly blank text as blank; otherwise the first failing check decides the error, in source order: the shape check's own error, then a timestamp not hex, then a process not hex, then a type that is empty or not all letters; a parsed ID keeps the trimmed text, has a non-empty all-letter type without '-', and non-negative timestamp and process |
| InstanceIds.NoSignNoNegative | lib/src/main/kotlin/io/github/dissonantau/bleatkan/instance/InstanceID.kt:91-99 | a hex part without '-' never parses to a negative number |
| InstanceIds.Format | lib/src/main/kotlin/io/github/dissonantau/bleatkan/instance/InstanceID.kt:186 | FORMAT_STRING output is the type, a dash, 16 digits, a dash and 8 digits (type length plus 26) |
| InstanceIds.FromFields | lib/src/main/kotlin/io/github/dissonantau/bleatkan/instance/InstanceID.kt:40-51 | the field constructor accepts exactly a positive timestamp, a positive process and a non-blank type, failing first on the timestamp, then the process, then the type; its text is the formatted string |
| InstanceIds.SameIdIsSameKey | lib/src/main/kotlin/io/github/dissonantau/bleatkan/instance/InstanceID.kt:149-158 | equals compares type, timestamp and process only: two IDs are equal exactly when their keys are |
| InstanceIds.HashConsistentWithEquals | lib/src/main/kotlin/io/github/dissonantau/bleatkan/instance/InstanceID.kt:174-179 | equal IDs have equal hash codes |
| InstanceIds.CompareTo | lib/src/main/kotlin/io/github/dissonantau/bleatkan/instance/InstanceID.kt:168-171 | compareTo orders by timestamp first and is zero exactly when timestamp and text agree |
| InstanceIds.CompareToAntisymmetric | lib/src/main/kotlin/io/github/dissonantau/bleatkan/instance/InstanceID.kt:168-171 | swapping the operands of compareTo negates the result |
| InstanceIds.CompareToInconsistentWithEquals | lib/src/main/kotlin/io/github/dissonantau/bleatkan/instance/InstanceID.kt:168-171 | for equal IDs compareTo is zero exactly when the texts agree, so compareTo is not consistent with equals |
| InstanceIds.ParseFormatRoundTrip | lib/src/main/kotlin/io/github/dissonantau/bleatkan/instance/InstanceID.kt:73-114 | parsing the string of an ID made from fields gives the same ID back |
| InstanceIds.FormattedParse | lib/src/main/kotlin/io/github/dissonantau/bleatkan/instance/InstanceID.kt:73-114 | text formatted from a type and non-negative timestamp and process parses back to exactly those fields, with the text kept |
| InstanceIds.FormatSplits | lib/src/main/kotlin/io/github/dissonantau/bleatkan/instance/InstanceID.kt:186 | a formatted ID is non-blank, already trimmed, and splits on '-' into the type and the two hex renderings |
| InstanceIds.ZeroFieldsOnlyParse | lib/src/main/kotlin/io/github/dissonantau/bleatkan/instance/InstanceID.kt:40-51 | an all-zero ID parses from text although the field constructor rejects the same fields |
| InstanceIds.ParsedParts | lib/src/main/kotlin/io/github/dissonantau/bleatkan/instance/InstanceID.kt:85-99 | a parsed ID's timestamp and process are the hex values of the second and third parts of the trimmed text |
| InstanceIds.GenerateReproducesText | lib/src/main/kotlin/io/github/dissonantau/bleatkan/instance/InstanceID.kt:191-193 | generateStringFromID reproduces a parsed ID's text exactly when both hex parts were lower case |
| InstanceIds.ParseThreeParts | lib/src/main/kotlin/io/github/dissonantau/bleatkan/instance/InstanceID.kt:73-114 | a type, 16 and 8 lower-case hex digits joined by dashes parse to their values with the whole text kept |
| InstanceIds.TestVector1 | lib/src/test/kotlin/io/github/dissonantau/bleatkan/InstanceIDTest.kt:13-20 | "mini-08dc982355adb2b7-00002020" parses to type mini, timestamp 638552524708491959, process 8224 |
| InstanceIds.TestVector2 | lib/src/test/kotlin/io/github/dissonantau/bleatkan/InstanceIDTest.kt:24-30 | "mini-08dc9cd35f178af0-00005ff0" parses to type mini, timestamp 638557678827178736, process 24560 |
| InstanceIds.TestVectorOrder | lib/src/test/kotlin/io/github/dissonantau/bleatkan/InstanceIDTest.kt:107-116 | the two vectors are unequal and compare as -1 and 1 in the two directions, 0 with themselves |
| InstanceIds.TestRejectBlank | lib/src/test/kotlin/io/github/dissonantau/bleatkan/InstanceIDTest.kt:34-40 | the empty string is rejected with the blank message |
| InstanceIds.TestRejectBadHex | lib/src/test/kotlin/io/github/dissonantau/bleatkan/InstanceIDTest.kt:44-52 | a timestamp with the non-hex digit 'x' is rejected as bad hex |
| InstanceIds.ParseBadTimestamp | lib/src/main/kotlin/io/github/dissonantau/bleatkan/instance/InstanceID.kt:91 | a 16-unit timestamp part holding a unit that Character.digit does not read as a hex digit is always rejected as bad hex |
| InstanceIds.FullwidthTimestamp | lib/src/main/kotlin/io/github/dissonantau/bleatkan/instance/InstanceID.kt:73-114 | the JDK accepts fullwidth digits: "mini-" followed by fullwidth 0 and 8 and the rest of the first test vector parses to the same timestamp and process, keeping its own text |
| Instances.NewInstance | bleatkan/lib/src/main/kotlin/io/github/dissonantau/bleatkan/instance/Instance.kt:77-83 | construction succeeds exactly for a non-empty ID type, a non-blank name and a non-blank server, keeping the fields, with the modification time at Long.MIN_VALUE |
| Instances.NewInstanceAt | bleatkan/lib/src/main/kotlin/io/github/dissonantau/bleatkan/instance/Instance.kt:85-91 | the 4-argument constructor validates as the 3-argument one and only adds the modification time |
| Instances.ConnectionId | bleatkan/lib/src/main/kotlin/io/github/dissonantau/bleatkan/instance/Instance.kt:82 | the connection ID is name, server and ID text, starting with the name and ending with the ID string |
| Instances.ConnectionIdIgnoresTime | bleatkan/lib/src/main/kotlin/io/github/dissonantau/bleatkan/instance/Instance.kt:82 | the connection ID depends on name, server and ID only, not on the modification time |
| Instances.ConnectionIdSeesText | bleatkan/lib/src/main/kotlin/io/github/dissonantau/bleatkan/instance/Instance.kt:82 | equal instances whose IDs differ only in text get different connection IDs |
| Instances.WebSocketUri | bleatkan/lib/src/main/kotlin/io/github/dissonantau/bleatkan/instance/Instance.kt:138-145 | the URI builder fails on a blank server, then on a blank name, then with a syntax error when java.net.URI rejects the text; otherwise it gives ws://server?n= followed by the encoded name |
| Instances.SpacedServerRejected | bleatkan/lib/src/main/kotlin/io/github/dissonantau/bleatkan/instance/Instance.kt:143 | a non-blank server containing a space makes the URI constructor throw, for any URI parser that rejects spaces |
| Instances.WebSocketUriServer | bleatkan/lib/src/main/kotlin/io/github/dissonantau/bleatkan/instance/Instance.kt:138-145 | for a server without '?', the URI's host part is recovered as the text between ws:// and the first '?' |
| Instances.InstanceUri | bleatkan/lib/src/main/kotlin/io/github/dissonantau/bleatkan/instance/Instance.kt:99-101 | a valid instance yields the URI built from its own server and name exactly when java.net.URI accepts that text, and a syntax error otherwise |
| Instances.InstanceUriFor | bleatkan/lib/src/main/kotlin/io/github/dissonantau/bleatkan/instance/Instance.kt:111-114 | with another name: a blank name fails with its message; otherwise the result is the static builder's for the instance's server, which for a valid instance succeeds exactly when java.net.URI accepts the text |
| InstancesManagers.Descriptor | bleatkan/lib/src/main/kotlin/io/github/dissonantau/bleatkan/instance/InstancesManager.kt:159-169 | a descriptor file is accepted exactly when the text is non-blank and longer than 2 UTF-16 units, decodes, has a positive time no older than now minus 10 seconds, a non-blank name and a non-blank server longer than 3 units |
| InstancesManagers.IdOf | bleatkan/lib/src/main/kotlin/io/github/dissonantau/bleatkan/instance/InstancesManager.kt:174 | the ID memo is consulted first; an unknown file name yields an ID exactly when the name parses |
| InstancesManagers.Register | bleatkan/lib/src/main/kotlin/io/github/dissonantau/bleatkan/instance/InstancesManager.kt:183-219 | registration memoises the ID, adds the instance key only when construction succeeds, leaves other keys alone, emits start for a new instance, and change (with the old instance) only when name or server differ |
| InstancesManagers.ProcessFile | bleatkan/lib/src/main/kotlin/io/github/dissonantau/bleatkan/instance/InstancesManager.kt:159-233 | an unaccepted descriptor or an unparsable file name changes nothing and emits nothing; otherwise the file is registered |
| InstancesManagers.RegisteredAsDescribed | bleatkan/lib/src/main/kotlin/io/github/dissonantau/bleatkan/instance/InstancesManager.kt:183-219 | after a valid registration the instance has the descriptor's name, server and time |
| InstancesManagers.ProcessFileKeepsInvariants | bleatkan/lib/src/main/kotlin/io/github/dissonantau/bleatkan/instance/InstancesManager.kt:159-233 | file processing keeps the ID memo consistent with parsing and every instance stored under its own ID's key |
| InstancesManagers.RegisterKeepsInvariants | bleatkan/lib/src/main/kotlin/io/github/dissonantau/bleatkan/instance/InstancesManager.kt:183-219 | registration keeps the memo consistent and the instances well keyed |
| InstancesManagers.RegisterKeepsKeys | bleatkan/lib/src/main/kotlin/io/github/dissonantau/bleatkan/instance/InstancesManager.kt:183-219 | registration stores every instance under its own ID's key |
| InstancesManagers.AcceptedSurvivesSweep | bleatkan/lib/src/main/kotlin/io/github/dissonantau/bleatkan/instance/InstancesManager.kt:335-347 | an instance just registered from an accepted descriptor is not stale for the same clock reading |
| InstancesManagers.RegisterIdempotent | bleatkan/lib/src/main/kotlin/io/github/dissonantau/bleatkan/instance/InstancesManager.kt:183-219 | registering the same descriptor twice changes nothing and emits nothing the second time |
| InstancesManagers.ProcessFileIdempotent | bleatkan/lib/src/main/kotlin/io/github/dissonantau/bleatkan/instance/InstancesManager.kt:159-233 | re-processing an unchanged file is silent and changes nothing |
| InstancesManagers.Sweep | bleatkan/lib/src/main/kotlin/io/github/dissonantau/bleatkan/instance/InstancesManager.kt:335-347 | the checker keeps exactly the instances not older than 10 seconds and reports an end for each one dropped |
| InstancesManagers.Shutdown | bleatkan/lib/src/main/kotlin/io/github/dissonantau/bleatkan/instance/InstancesManager.kt:361-371 | on shutdown the map is emptied and every instance gets an end event |
| InstancesManagers.MarkInstanceFailed | bleatkan/lib/src/main/kotlin/io/github/dissonantau/bleatkan/instance/InstancesManager.kt:423-433 | marking an ID failed removes exactly its key, keeps every other entry and emits an end for it, whether or not it was present |
| InstancesManagers.MarkFailedTwice | bleatkan/lib/src/main/kotlin/io/github/dissonantau/bleatkan/instance/InstancesManager.kt:423-433 | marking twice leaves the map as after once but emits the end event twice |
| InstancesManagers.GetInstance | bleatkan/lib/src/main/kotlin/io/github/dissonantau/bleatkan/instance/InstancesManager.kt:407-416 | lookup finds an instance exactly when its key is present, and returns the stored one |
| InstancesManagers.WatcherDelay | bleatkan/lib/src/main/kotlin/io/github/dissonantau/bleatkan/instance/InstancesManager.kt:286-295 | the watcher's pause lies between the minimum and twice the maximum, at most the maximum when files were found, doubled and even otherwise |
| InstancesManagers.ClampDelay | bleatkan/lib/src/main/kotlin/io/github/dissonantau/bleatkan/instance/InstancesManager.kt:289-292 | the pause is raised to the minimum or lowered to the maximum, and left alone when already within them |
| InstancesManagers.WatcherDelayShape | bleatkan/lib/src/main/kotlin/io/github/dissonantau/bleatkan/instance/InstancesManager.kt:286-295 | the pause falls by a second per second of loop time down to the minimum, is doubled without files, and never grows with a longer loop |
| InstancesManagers.CheckerDelay | bleatkan/lib/src/main/kotlin/io/github/dissonantau/bleatkan/instance/InstancesManager.kt:355-356 | the checker waits the maximum delay, doubled exactly when there are no instances |
| InstancesManagers.CheckerMatchesWatcher | bleatkan/lib/src/main/kotlin/io/github/dissonantau/bleatkan/instance/InstancesManager.kt:355-356 | the checker's delay is the watcher's delay for an instant loop with files found exactly when instances exist |
| MapEviction.Evict | bleatkan/lib/src/main/kotlin/io/github/dissonantau/bleatkan/instance/InstancesManager.kt:335-347 | removing entries by a predicate keeps exactly the others, and returns each removed value, every value the predicate drops |
| MapEviction.Partition | bleatkan/lib/src/main/kotlin/io/github/dissonantau/bleatkan/instance/InstancesManager.kt:335-347 | the dropped and the kept entries together are the whole map |
| RequestMessages.MessageEventFromValue | lib/src/main/kotlin/io/github/dissonantau/bleatkan/message/RequestMessage.kt:502 | fromValue returns the constant with that value, falling back to UNKNOWN only when no constant has it |
| RequestMessages.PayloadTypeFromValue | lib/src/main/kotlin/io/github/dissonantau/bleatkan/message/RequestMessage.kt:526 | fromValue returns the constant with that value, UNKNOWN otherwise |
| RequestMessages.PayloadIdFromValue | lib/src/main/kotlin/io/github/dissonantau/bleatkan/message/RequestMessage.kt:550 | fromValue returns the constant with that value, UNKNOWN otherwise |
| RequestMessages.PayloadEventFromValue | lib/src/main/kotlin/io/github/dissonantau/bleatkan/message/RequestMessage.kt:605 | PayloadEvent.fromValue succeeds exactly on a known event name and throws IllegalArgumentException otherwise, since requireNotNull is given the UNKNOWN constant as its message |
| RequestMessages.EnumRoundTrips | lib/src/main/kotlin/io/github/dissonantau/bleatkan/message/RequestMessage.kt:479-607 | fromValue inverts value for every constant of the four enums |
| RequestMessages.FromValueFallbacks | lib/src/main/kotlin/io/github/dissonantau/bleatkan/message/RequestMessage.kt:479-607 | a string no constant carries maps to UNKNOWN for the three message enums and to IllegalArgumentException for PayloadEvent |
| RequestMessages.CreatePayload | lib/src/main/kotlin/io/github/dissonantau/bleatkan/message/RequestMessage.kt:387-419 | createPayload throws exactly for UNKNOWN and for a token or state event without a non-blank value; list and peek give the shared payloads; others carry the trimmed value under the event's name |
| RequestMessages.CreateRequest | lib/src/main/kotlin/io/github/dissonantau/bleatkan/message/RequestMessage.kt:305-346 | createRequest succeeds exactly for list, or for payload with the stateEvents type, an ID and a payload, building a node event from their values |
| RequestMessages.CreateRequestWithPayload | lib/src/main/kotlin/io/github/dissonantau/bleatkan/message/RequestMessage.kt:455-472 | the combined factory fails when the payload factory fails and otherwise is createRequest over the created payload |
| RequestMessages.StateMini | lib/src/main/kotlin/io/github/dissonantau/bleatkan/message/RequestMessage.kt:98-300 | each state-mini shortcut succeeds exactly for a non-blank state ID, and its request validates and carries the chosen event |
| RequestMessages.SharedRequests | lib/src/main/kotlin/io/github/dissonantau/bleatkan/message/RequestMessage.kt:25-73 | the shared list and peek requests equal what createRequest builds for them |
| RequestMessages.ValidatePayload | lib/src/main/kotlin/io/github/dissonantau/bleatkan/message/RequestMessage.kt:842-914 | payload validation holds exactly for a well-formed payload, with IllegalArgumentException for an unknown event name and IllegalStateException otherwise |
| RequestMessages.ValidateRequest | lib/src/main/kotlin/io/github/dissonantau/bleatkan/message/RequestMessage.kt:673-753 | request validation holds exactly for a well-formed request and otherwise throws IllegalStateException |
| RequestMessages.WrongEventIgnoresRest | lib/src/main/kotlin/io/github/dissonantau/bleatkan/message/RequestMessage.kt:673-753 | a node event whose event is not payload fails validation whatever its other fields |
| RequestMessages.UnknownPayloadEventKinds | lib/src/main/kotlin/io/github/dissonantau/bleatkan/message/RequestMessage.kt:673-753 | an unknown payload event is IllegalArgumentException alone but IllegalStateException inside a request |
| RequestMessages.CreatedPayloadValid | lib/src/main/kotlin/io/github/dissonantau/bleatkan/message/RequestMessage.kt:387-419 | every payload the factory creates passes validation |
| RequestMessages.FactoryRequestValid | lib/src/main/kotlin/io/github/dissonantau/bleatkan/message/RequestMessage.kt:455-472 | every stateEvents/mini request the combined factory creates passes validation |
| RequestMessages.UnknownIdPassesFactoryFailsValidate | lib/src/main/kotlin/io/github/dissonantau/bleatkan/message/RequestMessage.kt:305-346 | the factory accepts the UNKNOWN payload ID, whose request then fails validation |
| RequestMessages.StateMiniEncoding | lib/src/main/kotlin/io/github/dissonantau/bleatkan/message/RequestMessage.kt:652-654 | a state-mini request encodes as the fixed stateEvents/mini envelope around the event name and the JSON-escaped trimmed state, which unescapes back to the trimmed state |
| JsonStrings.EscapeChar | bleatkan/lib/src/main/kotlin/io/github/dissonantau/bleatkan/connection/Connection.kt:863 | a character is copied exactly when it is neither a quote, a backslash nor a control character, and is otherwise written as a backslash escape |
| JsonStrings.Escape | bleatkan/lib/src/main/kotlin/io/github/dissonantau/bleatkan/connection/Connection.kt:863 | escaping never shortens a string and leaves it unchanged exactly when every character is copied |
| JsonStrings.EscapeCons | bleatkan/lib/src/main/kotlin/io/github/dissonantau/bleatkan/connection/Connection.kt:863 | a string is escaped character by character, front to back |
| JsonStrings.Quote | bleatkan/lib/src/main/kotlin/io/github/dissonantau/bleatkan/connection/Connection.kt:863 | a string literal starts and ends with a quote and, for a string needing no escapes, holds it verbatim |
| JsonStrings.UnescapeEscape | bleatkan/lib/src/main/kotlin/io/github/dissonantau/bleatkan/connection/Connection.kt:863 | reading the escaped text back as JSON string contents gives the original string, for every string |
| JsonStrings.UnescapeChar | bleatkan/lib/src/main/kotlin/io/github/dissonantau/bleatkan/connection/Connection.kt:863 | each character's escape reads back as that character, then the rest |
| JsonStrings.EscapeQuote | bleatkan/lib/src/main/kotlin/io/github/dissonantau/bleatkan/connection/Connection.kt:863 | a quote inside a value is written with a backslash before it |
| JsonStrings.EscapeUnitSeparator | bleatkan/lib/src/main/kotlin/io/github/dissonantau/bleatkan/connection/Connection.kt:863 | a control character without a short escape is written as \u001f-style four-digit lower-case hex |
| RequestMessages.EncodeEventList | lib/src/main/kotlin/io/github/dissonantau/bleatkan/message/RequestMessage.kt:652-654 | the list request encodes as {"event":"list"} |
| RequestMessages.EncodeListStateMini | bleatkan/lib/src/test/kotlin/io/github/dissonantau/bleatkan/message/RequestMessageFactoryTest.kt:72-98 | the shared list-states request encodes as the expected text |
| RequestMessages.EncodeSetBF | bleatkan/lib/src/test/kotlin/io/github/dissonantau/bleatkan/message/RequestMessageFactoryTest.kt:142-157 | the set-state request for "BF" encodes as the expected text |
| RequestMessages.SetPlainStateEncoding | lib/src/main/kotlin/io/github/dissonantau/bleatkan/message/RequestMessage.kt:652-654 | a set request for a state ID needing neither trimming nor escaping carries that ID verbatim |
| RequestMessages.SetBFText | bleatkan/lib/src/test/kotlin/io/github/dissonantau/bleatkan/message/RequestMessageFactoryTest.kt:142-157 | the generic encoding instantiated at "BF" is that text |
| ResultMessages.FromBody | bleatkan/lib/src/main/kotlin/io/github/dissonantau/bleatkan/message/ResultMessage.kt:26-46 | a decoded message has the given body and an empty channel |
| ResultMessages.WithChannel | bleatkan/lib/src/main/kotlin/io/github/dissonantau/bleatkan/message/ResultMessage.kt:55-57 | setting the channel keeps the body |
| ResultMessages.ChannelIgnoredByEquality | bleatkan/lib/src/main/kotlin/io/github/dissonantau/bleatkan/message/ResultMessage.kt:26-57 | the channel is outside the data-class equality: messages differing only in channel compare equal |
| ResultMessages.PngEqualityConsistent | bleatkan/lib/src/main/kotlin/io/github/dissonantau/bleatkan/message/ResultMessage.kt:111-133 | the thumbnail payload's equals agrees with structural equality and equal payloads hash equally |
| ResultMessages.PngHashCollision | bleatkan/lib/src/main/kotlin/io/github/dissonantau/bleatkan/message/ResultMessage.kt:126-133 | two thumbnail payloads with pngs "Aa" and "BB" are unequal yet hash equally |
| Serializers.AsObject | lib/src/main/kotlin/io/github/dissonantau/bleatkan/message/Serializers.kt:14-23 | a non-object element is rejected with IllegalArgumentException |
| Serializers.SelectRequestMessage | lib/src/main/kotlin/io/github/dissonantau/bleatkan/message/Serializers.kt:14-23 | the request selector chooses the node-event form exactly for an object with a payload key, and otherwise throws |
| Serializers.SelectRequestPayload | lib/src/main/kotlin/io/github/dissonantau/bleatkan/message/Serializers.kt:26-36 | the payload selector chooses token over state over event-only by key presence, and throws for an object with none of them |
| Serializers.SelectResultMessage | lib/src/main/kotlin/io/github/dissonantau/bleatkan/message/Serializers.kt:41-50 | the result selector chooses the payload form exactly when a payload key is present, the entries form with only entries, and otherwise throws |
| Serializers.SelectResultPayload | lib/src/main/kotlin/io/github/dissonantau/bleatkan/message/Serializers.kt:53-66 | states selects the list; otherwise state with png selects the thumbnail and state alone the current state; otherwise it throws |
| Serializers.SelectionDependsOnlyOnKeys | lib/src/main/kotlin/io/github/dissonantau/bleatkan/message/Serializers.kt:14-66 | every selector looks only at which keys the object has, not at their values |
| Serializers.EventListNotSelected | lib/src/main/kotlin/io/github/dissonantau/bleatkan/message/Serializers.kt:14-23 | the list request {"event":"list"} has no payload key and is rejected by the selector |
| Serializers.RequestTreeSelection | lib/src/main/kotlin/io/github/dissonantau/bleatkan/message/Serializers.kt:14-36 | the encoded tree of each request and payload kind is selected back to its own kind, except the list request |
| Serializers.DecodeStates | lib/src/main/kotlin/io/github/dissonantau/bleatkan/message/Serializers.kt:53-66 | a decoded state list has one state per element, each the decoding of its element |
| Serializers.DecodeEntries | lib/src/main/kotlin/io/github/dissonantau/bleatkan/message/Serializers.kt:41-50 | a decoded entry list has one entry per element, each the decoding of its element |
| Serializers.IntValue | bleatkan/lib/src/main/kotlin/io/github/dissonantau/bleatkan/message/ResultMessage.kt:98-102 | an Int property takes a JSON number, or a string holding decimal digits after an optional minus sign, exactly when its value is in the Int range, and yields that value; anything else is rejected |
| Serializers.IntTextRoundTrip | bleatkan/lib/src/main/kotlin/io/github/dissonantau/bleatkan/message/ResultMessage.kt:98-102 | the content of a quoted number written by Int.toString() reads back as that number, for every integer |
| Serializers.QuotedIntRoundTrip | bleatkan/lib/src/main/kotlin/io/github/dissonantau/bleatkan/message/ResultMessage.kt:98-102 | every Int written as a quoted decimal is accepted by an Int property and yields that Int |
| Serializers.DecodeResultPayload | lib/src/main/kotlin/io/github/dissonantau/bleatkan/message/Serializers.kt:53-66 | a decoded payload is of the kind the selector chose |
| Serializers.DecodeResultMessage | lib/src/main/kotlin/io/github/dissonantau/bleatkan/message/Serializers.kt:41-50 | a decoded message is of the kind the selector chose |
| Serializers.StatesRoundTrip | lib/src/main/kotlin/io/github/dissonantau/bleatkan/message/Serializers.kt:53-66 | decoding the encoded tree of a state list gives the list back |
| Serializers.EntriesRoundTrip | lib/src/main/kotlin/io/github/dissonantau/bleatkan/message/Serializers.kt:41-50 | decoding the encoded tree of an entry list gives the list back |
| Serializers.ResultPayloadRoundTrip | lib/src/main/kotlin/io/github/dissonantau/bleatkan/message/Serializers.kt:53-66 | decoding the encoded tree of any result payload gives the payload back |
| Serializers.ResultRoundTrip | lib/src/main/kotlin/io/github/dissonantau/bleatkan/message/Serializers.kt:41-50 | decoding the encoded tree of any result message gives the message back |
| Serializers.QuotedSizesDecoded | lib/src/main/kotlin/io/github/dissonantau/bleatkan/message/Serializers.kt:53-66 | a thumbnail payload whose width and height arrive as quoted decimals decodes to the same payload as with plain numbers |
| Serializers.PngWithoutStateRejected | lib/src/main/kotlin/io/github/dissonantau/bleatkan/message/Serializers.kt:53-66 | an object with png but neither state nor states is rejected |
| Serializers.ThumbReply | lib/src/test/kotlin/io/github/dissonantau/bleatkan/connection/ConnectionTest.kt:253-310 | the thumbnail reply of the connection test decodes to a payload message with the thumb payload 3, 129 by 129 |
| Connections.BodyEnd | bleatkan/lib/src/main/kotlin/io/github/dissonantau/bleatkan/connection/Connection.kt:701-709 | the body ends at the first NUL, unless there is none or the message starts with NUL, then at the end |
| Connections.Decode | bleatkan/lib/src/main/kotlin/io/github/dissonantau/bleatkan/connection/Connection.kt:712-717 | empty bytes decode to the empty string |
| Connections.ProcessReceivedMessage | bleatkan/lib/src/main/kotlin/io/github/dissonantau/bleatkan/connection/Connection.kt:671-736 | a received frame yields a message exactly when a colon follows a non-empty non-blank channel, the body before the first NUL parses as JSON and decodes; the message carries that channel and body |
| Connections.FrameRoundTrip | bleatkan/lib/src/main/kotlin/io/github/dissonantau/bleatkan/connection/Connection.kt:671-736 | channel, colon, body and NUL padding is split back into that channel and body |
| Connections.BraceBeforeColonAccepted | bleatkan/lib/src/main/kotlin/io/github/dissonantau/bleatkan/connection/Connection.kt:680-697 | a channel that starts with '{' is accepted: only the colon's position is checked, not an earlier brace |
| Connections.NoChannelNoMessage | bleatkan/lib/src/main/kotlin/io/github/dissonantau/bleatkan/connection/Connection.kt:680-697 | without a colon, or with nothing before it, no message is produced |
| Connections.NulBeforeColonRejected | bleatkan/lib/src/main/kotlin/io/github/dissonantau/bleatkan/connection/Connection.kt:701-709 | a NUL before the first colon cuts the body short of the channel and the frame is dropped |
| Connections.LeadingNulIgnored | bleatkan/lib/src/main/kotlin/io/github/dissonantau/bleatkan/connection/Connection.kt:701-709 | a message starting with NUL is not truncated at all |
| Connections.FrameMessages | bleatkan/lib/src/main/kotlin/io/github/dissonantau/bleatkan/connection/Connection.kt:619-649 | a frame yields at most one message and a non-text frame none |
| Connections.Receive | bleatkan/lib/src/main/kotlin/io/github/dissonantau/bleatkan/connection/Connection.kt:605-661 | the receiver yields at most one message per frame |
| Connections.SingleFrameDelivered | bleatkan/lib/src/main/kotlin/io/github/dissonantau/bleatkan/connection/Connection.kt:619-649 | a text frame that processes is delivered as that message; any other frame delivers nothing |
| Connections.ReceiveAppend | bleatkan/lib/src/main/kotlin/io/github/dissonantau/bleatkan/connection/Connection.kt:619-649 | receiving two runs of frames delivers the messages of the first then of the second |
| Connections.ReceiveEvents | bleatkan/lib/src/main/kotlin/io/github/dissonantau/bleatkan/connection/Connection.kt:798-803 | every delivered message becomes one receive event, in order |
| Connections.DeliverFrames | bleatkan/lib/src/main/kotlin/io/github/dissonantau/bleatkan/connection/Connection.kt:619-649 | the frame loop delivers exactly the messages Receive describes |
| Connections.Send | bleatkan/lib/src/main/kotlin/io/github/dissonantau/bleatkan/connection/Connection.kt:853-871 | send fails with IllegalStateException when closed or stopped, with IllegalArgumentException exactly for a blank channel, and succeeds exactly on an open session with a valid request, sending channel, colon and the encoded request |
| Connections.SendFrameSplits | bleatkan/lib/src/main/kotlin/io/github/dissonantau/bleatkan/connection/Connection.kt:853-871 | for a channel without ':' the sent frame splits at its first colon into the channel and the encoded request |
| Connections.Close | bleatkan/lib/src/main/kotlin/io/github/dissonantau/bleatkan/connection/Connection.kt:827-841 | close sets the closed flag and stops loop and session the first time, and does nothing on a closed connection |
| Connections.CloseLatch | bleatkan/lib/src/main/kotlin/io/github/dissonantau/bleatkan/connection/Connection.kt:827-871 | a second close runs no cleanup, and every send after close fails with IllegalStateException |
| Connections.AlternatesAppend | bleatkan/lib/src/main/kotlin/io/github/dissonantau/bleatkan/connection/Connection.kt:532-538 | connected and disconnected events alternate over a concatenation exactly when they do on each part from the state the first leaves |
| Connections.ReceiveEventsNeutral | bleatkan/lib/src/main/kotlin/io/github/dissonantau/bleatkan/connection/Connection.kt:798-803 | receive events never break the alternation nor change the connected state |
| Connections.Attempted | bleatkan/lib/src/main/kotlin/io/github/dissonantau/bleatkan/connection/Connection.kt:469-499 | a refused or illegal-state attempt reports failed-to-connect, another failure an unknown error, cancellation stops the loop, and a session reports connected (once) then its messages |
| Connections.Finally | bleatkan/lib/src/main/kotlin/io/github/dissonantau/bleatkan/connection/Connection.kt:500-543 | after an attempt the connection is disconnected; a stopped loop counts an error, waits after an abnormal close, reports exceeded retries at the limit; a disconnect event only if it was connected; a running loop waits by its error count |
| Connections.StepClassifies | bleatkan/lib/src/main/kotlin/io/github/dissonantau/bleatkan/connection/Connection.kt:469-499 | the first event of a step classifies the attempt's failure; a cancelled attempt stops the loop and never reports failed-to-connect |
| Connections.StepAlternates | bleatkan/lib/src/main/kotlin/io/github/dissonantau/bleatkan/connection/Connection.kt:469-543 | each watcher iteration keeps connected and disconnected events alternating and ends disconnected |
| Connections.FinallyAlternates | bleatkan/lib/src/main/kotlin/io/github/dissonantau/bleatkan/connection/Connection.kt:500-543 | the cleanup step keeps the alternation and leaves the connection disconnected |
| Connections.ActiveLoopNeverCounts | bleatkan/lib/src/main/kotlin/io/github/dissonantau/bleatkan/connection/Connection.kt:500-543 | from zero errors a step leaves the count at most 1, never reports exceeded retries, and a running loop waits zero milliseconds: the count only grows on the loop's last pass |
| Connections.RunWatcher | bleatkan/lib/src/main/kotlin/io/github/dissonantau/bleatkan/connection/Connection.kt:458-556 | the whole watcher ends stopped and disconnected with at most one counted error, never reports exceeded retries, and its events alternate from disconnected |
| LruMaps.Lookup | src/main/kotlin/io/github/dissonantau/veadotubetouchportalplugin/data/VeadoConnectionData.kt:82 | an LRU lookup finds a value exactly for a present key, and the entry is stored |
| LruMaps.Remove | src/main/kotlin/io/github/dissonantau/veadotubetouchportalplugin/data/VeadoConnectionData.kt:179-180 | remove drops exactly the entries with that key |
| LruMaps.Retain | src/main/kotlin/io/github/dissonantau/veadotubetouchportalplugin/data/VeadoConnectionData.kt:139-140 | retainAll on the keys keeps exactly the entries whose key is kept |
| LruMaps.Get | src/main/kotlin/io/github/dissonantau/veadotubetouchportalplugin/data/VeadoConnectionData.kt:203-216 | get returns the lookup and leaves the order alone unless a found entry is moved to the most-recent end |
| LruMaps.RemoveDistinct | src/main/kotlin/io/github/dissonantau/veadotubetouchportalplugin/data/VeadoConnectionData.kt:179-180 | removal keeps keys distinct and drops exactly one entry for a present key, none otherwise |
| LruMaps.RetainDistinct | src/main/kotlin/io/github/dissonantau/veadotubetouchportalplugin/data/VeadoConnectionData.kt:139-140 | retaining keeps keys distinct |
| LruMaps.PutSpec | src/main/kotlin/io/github/dissonantau/veadotubetouchportalplugin/data/VeadoConnectionData.kt:209 | put keeps keys distinct and the size within the maximum, and stores the value as the most recently used entry |
| LruMaps.PutKeeps | src/main/kotlin/io/github/dissonantau/veadotubetouchportalplugin/data/VeadoConnectionData.kt:209 | put keeps every other entry, except the least recently used one when a new key enters a full map |
| LruMaps.GetKeepsEntries | src/main/kotlin/io/github/dissonantau/veadotubetouchportalplugin/data/VeadoConnectionData.kt:203-216 | get never adds or drops an entry |
| VeadoConnectionData.Initial | src/main/kotlin/io/github/dissonantau/veadotubetouchportalplugin/data/VeadoConnectionData.kt:37-92 | a new cache holds no states, no current state and empty LRU tiers, and satisfies the cache invariant |
| VeadoConnectionData.GetStateById | src/main/kotlin/io/github/dissonantau/veadotubetouchportalplugin/data/VeadoConnectionData.kt:49 | lookup by ID finds a state exactly for a known ID, and the state has that ID |
| VeadoConnectionData.GetOrPut | src/main/kotlin/io/github/dissonantau/veadotubetouchportalplugin/data/VeadoConnectionData.kt:122 | getOrPut returns the state stored for the ID, creating and indexing the given new one only when the ID was unknown, and changes nothing else |
| VeadoConnectionData.Allocated | src/main/kotlin/io/github/dissonantau/veadotubetouchportalplugin/data/VeadoConnectionData.kt:122 | indexing a fresh state under an unknown ID keeps the cache invariant |
| VeadoConnectionData.Rename | src/main/kotlin/io/github/dissonantau/veadotubetouchportalplugin/data/VeadoConnectionData.kt:277-283 | update(state) renames exactly when the IDs match and the new name is not blank, and reports whether it did |
| VeadoConnectionData.ThumbnailOf | src/main/kotlin/io/github/dissonantau/veadotubetouchportalplugin/data/VeadoConnectionData.kt:385-401 | a thumbnail made from a payload holds its png, width, height and the png's hash |
| VeadoConnectionData.StateThumbnailUpdate | src/main/kotlin/io/github/dissonantau/veadotubetouchportalplugin/data/VeadoConnectionData.kt:297-317 | a state takes a thumbnail exactly for its own ID, a non-blank png and a hash differing from the stored one, and then holds that payload's data |
| VeadoConnectionData.ThumbnailUpdate | src/main/kotlin/io/github/dissonantau/veadotubetouchportalplugin/data/VeadoConnectionData.kt:385-401 | an existing thumbnail changes exactly for a non-blank png with a different hash |
| VeadoConnectionData.StateThumbnailUpdateTwice | src/main/kotlin/io/github/dissonantau/veadotubetouchportalplugin/data/VeadoConnectionData.kt:297-317 | the same thumbnail applied again is refused |
| VeadoConnectionData.UpdateStates | src/main/kotlin/io/github/dissonantau/veadotubetouchportalplugin/data/VeadoConnectionData.kt:100-143 | updating the state list renames matching states, creates unknown ones, and only when something was created replaces the list in payload order, re-indexes by ID and drops tier entries of states no longer listed; otherwise the list, index and tiers stay |
| VeadoConnectionData.Scan | src/main/kotlin/io/github/dissonantau/veadotubetouchportalplugin/data/VeadoConnectionData.kt:109-127 | after the loop each incoming state has in the new list the state indexed under its ID, the positional one wherever the IDs match; existing states only change their names; every other state was created from an incoming one; and the replace flag is set exactly when some incoming ID was not yet indexed |
| VeadoConnectionData.UpdateCurrentState | src/main/kotlin/io/github/dissonantau/veadotubetouchportalplugin/data/VeadoConnectionData.kt:152-168 | the current state changes exactly when its ID differs, to the indexed state; for an unknown ID a bare state is created under a fresh reference and indexed, while every existing state, the index entries, both tiers, the thumbnails and the current thumbnail stay as they were; otherwise nothing changes |
| VeadoConnectionData.UpdateCurrentStateTwice | src/main/kotlin/io/github/dissonantau/veadotubetouchportalplugin/data/VeadoConnectionData.kt:152-168 | a repeated peek reports no change and changes nothing |
| VeadoConnectionData.StoredHash | src/main/kotlin/io/github/dissonantau/veadotubetouchportalplugin/data/VeadoConnectionData.kt:300-301 | a stored hash exists only for a known state holding a thumbnail |
| VeadoConnectionData.TierUpdate | src/main/kotlin/io/github/dissonantau/veadotubetouchportalplugin/data/VeadoConnectionData.kt:203-220 | a tier keeps distinct keys within its size; the state is present afterwards exactly when it was, or a move was asked, or the tier had room; nothing but the state's entry and the evicted least recent entry changes |
| VeadoConnectionData.UpdateStateThumbnail | src/main/kotlin/io/github/dissonantau/veadotubetouchportalplugin/data/VeadoConnectionData.kt:188-225 | a thumbnail update creates the state if needed and succeeds exactly for a non-blank png whose hash differs from the stored one; the state then holds that thumbnail (the same object if it had one), the current thumbnail follows it, and both tiers take it by the LRU rule |
| VeadoConnectionData.UpdateStateThumbnailTwice | src/main/kotlin/io/github/dissonantau/veadotubetouchportalplugin/data/VeadoConnectionData.kt:188-225 | the same thumbnail update applied twice reports no change the second time |
| VeadoConnectionData.ClearedStateThumbnail | src/main/kotlin/io/github/dissonantau/veadotubetouchportalplugin/data/VeadoConnectionData.kt:172-181 | clearing drops the state's thumbnail and its entries in both tiers, clears the current thumbnail only for the current state, and leaves everything else |
| VeadoConnectionData.Cleared | src/main/kotlin/io/github/dissonantau/veadotubetouchportalplugin/data/VeadoConnectionData.kt:172-181 | the clearing step keeps the cache invariant |
| VeadoConnectionData.ClearedTwice | src/main/kotlin/io/github/dissonantau/veadotubetouchportalplugin/data/VeadoConnectionData.kt:172-181 | clearing twice is the same as clearing once |
| VeadoConnectionData.ClearedThenUpdated | src/main/kotlin/io/github/dissonantau/veadotubetouchportalplugin/data/VeadoConnectionData.kt:172-225 | after clearing, a non-blank thumbnail for that state is always taken |
| VeadoConnectionData.IdsKept | src/main/kotlin/io/github/dissonantau/veadotubetouchportalplugin/data/VeadoConnectionData.kt:100-143 | changing states without changing their IDs keeps the ID index and list consistent |
| Clients.NonBlank | lib/src/main/kotlin/io/github/dissonantau/bleatkan/Client.kt:49-51 | filtering keeps exactly the non-blank channel names |
| Clients.NonBlankOrder | lib/src/main/kotlin/io/github/dissonantau/bleatkan/Client.kt:49-51 | filtering keeps the order of the names |
| Clients.Channels | lib/src/main/kotlin/io/github/dissonantau/bleatkan/Client.kt:41-57 | a missing list gives no channels; otherwise the channels are exactly the non-blank names given, without repeats |
| Clients.ChannelsOrder | lib/src/main/kotlin/io/github/dissonantau/bleatkan/Client.kt:49-51 | the kept channels are in the order their names first occur |
| Clients.FirstChannel | lib/src/main/kotlin/io/github/dissonantau/bleatkan/Client.kt:49-51 | there is a first channel exactly when some name is non-blank, and it is the first non-blank name |
| Clients.NewClient | lib/src/main/kotlin/io/github/dissonantau/bleatkan/Client.kt:41-57 | a client keeps its connection and no blank channel |
| Clients.NewClientSingle | lib/src/main/kotlin/io/github/dissonantau/bleatkan/Client.kt:34-38 | the single-channel constructor keeps the name unless it is blank |
| Clients.Send | lib/src/main/kotlin/io/github/dissonantau/bleatkan/Client.kt:65-69 | send does nothing without channels or connection, and otherwise sends on the first channel without validation, succeeding exactly when the connection can send |
| Clients.SendOn | lib/src/main/kotlin/io/github/dissonantau/bleatkan/Client.kt:72-74 | sending on a given channel does nothing without a connection and fails for a blank channel |
| Clients.Close | lib/src/main/kotlin/io/github/dissonantau/bleatkan/Client.kt:94-99 | close drops the connection and keeps the channels |
| Clients.ClosedSendsNothing | lib/src/main/kotlin/io/github/dissonantau/bleatkan/Client.kt:94-99 | a closed client sends nothing on any channel |
| Clients.ConstructedSend | lib/src/main/kotlin/io/github/dissonantau/bleatkan/Client.kt:41-69 | a client built from names with a non-blank one always attempts the send, never fails for a blank channel, and on a healthy connection sends the frame on the first non-blank name |

## Left out

- Sockets, the Ktor HTTP client and WebSocket session lifecycle: a session is an abstract outcome of a connection attempt (refused, failed, cancelled, or a run of frames).
- Coroutines, `Flow` buffering, `Mutex` and `@Synchronized`: every operation is modelled as atomic, since the model has no concurrency.
- Filesystem access and the directory watcher: file contents and names are inputs, and reading errors are the "not accepted" path.
- The wall clock: `getUnixTime()` is the parameter `now`, and one sweep uses one reading for every entry where the source reads the clock per entry.
- `HashMap` iteration order: the sweep and shutdown report ended instances in an unspecified order.
- JSON text parsing and number formatting: decoding works on a JSON tree produced by a parser parameter. The request encoder writes strings with the serialization library's escapes, but `Unescape` does not join a surrogate pair written as two `\u` escapes (the encoder never writes one).
- The JDK's `Character.digit` and `Character.isLetter` tables: they are the parameter `CharTables`. Only the ASCII digits and letters and the fullwidth digits and Latin letters (U+FF10 to U+FF19, U+FF21 to U+FF26, U+FF41 to U+FF46) are fixed by `JdkDigits`; the other Unicode decimal digits the JDK accepts are left to the parameter.
- Serializers.IntValue: a quoted `Int` is read as decimal digits with an optional minus sign; other numeric spellings the library's number reader may take inside quotes (a `+` sign, an exponent) are rejected.
- `java.net.URI` parsing: whether the URI text parses is the parameter `uriParses`; the model only fixes that a parser rejecting spaces rejects a server with a space.
- `URLEncoder`, base64 (`pngAsBytes`) and UTF-8 decoding: these are parameters or not modelled.
- Garbage collection of weakly and softly referenced thumbnails: a state's thumbnail is never lost, so the LRU tiers only decide which entries they hold.
- Validator and exception message texts: errors are kinds (`IllegalArgument`, `IllegalState`, the instance-ID error kinds), except the blank-ID message a test checks.
- Singleton and object identity of `Instance` and message objects beyond what equality shows.
- The test-only `Connection` constructor, logging, and `toString` of messages and instances.
- Listener callbacks: they are an event trace (`Event`, `InstanceEvent`); exceptions thrown by listeners are not modelled.
- The WebSocket close reason and message carried between the watcher loop and `stopWebsocket`.
- Connections.Close: states the flags `close()` sets, but not the HTTP client shutdown or the WebSocket close it triggers.
- Clients.NewClient: the client holds its own copy of the connection's flags, so a `close()` called on the `Connection` directly is not seen by the client's `send`; in the source both share one object.
- `InstancesManager.close()` job cancellation and the checker's and watcher's coroutine jobs: only their effect on the instance map (shutdown) is modelled.
- `Client` listener glue (`emitReceive`, `emitConnect`, registration with the connection) and the commented-out per-channel client map of `Connection`.
- Apache Commons `LRUMap` internals beyond `get`, `put`, `remove`, `isFull` and `keySet().retainAll`.
- The Gradle build files.
