# swift-feeds XML engine, modelled in Dafny

The feed parsers of swift-feeds read RSS and Atom documents in three steps,
and this project models all three:

1. An XML scanner's callbacks are assembled into a tree of `XMLTag` nodes by
   `XMLReader`. A node has a name, an optional namespace prefix, attributes,
   optional text and an optional ordered list of children.
2. `XMLTag` answers the queries the decoder needs: children by name or by
   prefix, a dictionary holding the first child of each name, and the set of
   child prefixes.
3. `XMLDecoder` is a Swift `Decoder` over one node. It has three views:
   - the single-value view reads the node's text as a String, a Bool or a
     fixed-width integer;
   - the keyed view reads a field from an attribute, then from the first child
     of that name, then from the node's own text, and descends into children
     or into a namespace;
   - the unkeyed view is a cursor over the children named by the last coding
     key, or over the children carrying the decoder's namespace prefix.

The modules are:

- `Coding` (`coding.dfy`): `Option`, `Result`, `CodingKey`, the three
  `DecodingError` kinds the engine raises, and the index key "[i]".
- `Numerals` (`numerals.dfy`): the two text-to-integer readings used by the
  integer decoder. The first is Swift's direct `T(text)` parse: an optional
  sign, then decimal digits. The fallback, `NSNumber.fromJSONNumber`, is
  not part of this model; in its place the model reads the text by the
  number grammar of RFC 8259, section 6, with its exact value, and accepts
  that value only when it is an integer.
- `XMLTags` (`xml_tag.dfy`): the `Tag` datatype and the `XMLTag` queries, as
  recursive folds.
- `XMLReading` (`xml_reader.dfy`): the reader as a class with the source's
  three fields and one method per callback. Each method is specified by a
  pure step function on `ReaderState`. Beside it are a serializer from trees
  to callbacks and a proof that reading a tree's callbacks rebuilds the tree.
  The serializer is parameterised by a `Layout` that is indexed by each
  element's position in the tree (the root at `[]`, the k-th child of the
  element at `p` at `p + [k]`). The layout gives the URI reported for each
  prefix, the default namespace reported for an unprefixed element at each
  position, how the text at each position is split into fragments, and the
  text (such as indentation) reported after the end of the element at each
  position. Equal subtrees at different positions may be laid out
  differently. The root's prefix declarations come first. That proof
  carries the stack discipline:
  - opening an element pushes the element that was current, if any, and
    makes the new element current;
  - closing it attaches it exactly once, as the last child of its parent;
  - text after a closed element is dropped.
- `XMLDecoding` (`xml_decoder.dfy`): the decoder and its three views. The
  `Decoder` and `KeyedContainer` structs are datatypes. `UnkeyedContainer`
  is a class whose `currentIndex` moves only after a successful decode.

Choices that follow the code:

- A Bool is accepted only from exactly "true" or "false", which is Swift's
  `Bool(String)`. Numeric Booleans are not accepted.
- The engine never raises typeMismatch. Its errors are valueNotFound,
  keyNotFound and dataCorrupted.
- On the unkeyed view, every Bool failure is valueNotFound, including text
  that is not a Boolean.
- `unwrapFixedWidthInteger` computes a path extended by the caller's key,
  but it reports its errors at the decoder's own path. The model reports
  them at the decoder's own path too.
- The prefix table of the reader is one global map from URI to prefix, and
  the last write wins. The scoping of section 6.1 of Namespaces in XML 1.0
  is not applied.
- `Int` and `UInt` are taken to be 64 bits wide.

## Model

| member | source | states |
|---|---|---|
| Coding.StringKey | Sources/Feeds/Decoders/XMLDecoder.swift:16-19 | a string key carries the string and no index |
| Coding.IndexKey | Sources/Feeds/Decoders/XMLDecoder.swift:26-29 | the index key carries the index and renders as "[", the canonical decimal digits of the index (no leading zero), "]" |
| Coding.IndexKeyInjective | Sources/Feeds/Decoders/XMLDecoder.swift:26-29 | distinct indices render as distinct "[i]" keys |
| Coding.NatToStringValue | Sources/Feeds/Decoders/XMLDecoder.swift:27 | the decimal rendering of an index reads back as that index |
| Numerals.ParseIntegerRoundTrip | Sources/Feeds/Decoders/XMLDecoder.swift:213-216 | the direct parse reads every integer back from its decimal rendering |
| Numerals.ParseInteger | Sources/Feeds/Decoders/XMLDecoder.swift:213-216 | a plain run of digits reads as its value; accepted text is non-empty and has no '.', so "34.0" takes the slow path; a negative result comes from a leading '-' |
| Numerals.IntegralValue | Sources/Feeds/Decoders/XMLDecoder.swift:220-250 | a JSON number yields an integer exactly when mantissa times 10^exponent is whole, and that integer is its value |
| Numerals.ParseJSONNumberOneDecimal | Sources/Feeds/Decoders/XMLDecoder.swift:218-220 | "v.d" is read exactly: mantissa 10·abs(v) + d, exponent -1, and the sign of v |
| Numerals.ExactInteger | Sources/Feeds/Decoders/XMLDecoder.swift:218-250 | text that is no JSON number gives no integer; an integer given is exactly the number's value; a number without negative exponent always gives one |
| Numerals.ExactIntegerOfRendering | Sources/Feeds/Decoders/XMLDecoder.swift:218-250 | the fallback reading of an integer's rendering is that integer |
| Numerals.ExactIntegerZeroFraction | Sources/Feeds/Decoders/XMLDecoder.swift:218-250 | the fallback reads "v.0" as the integer v |
| Numerals.ExactIntegerRejectsFraction | Sources/Feeds/Decoders/XMLDecoder.swift:218-250 | the fallback finds no integer in "v.d" for a non-zero digit d |
| XMLTags.QualifiedName | Sources/Feeds/Util/XMLReader/XMLTag.swift:17-22 | "prefix:name" with a prefix, the bare name without one |
| XMLTags.QualifiedNameRoundTrip | Sources/Feeds/Util/XMLReader/XMLTag.swift:17-22 | for colon-free names and prefixes, the qualified name determines prefix and name |
| XMLTags.ChildrenNamedMembers | Sources/Feeds/Util/XMLReader/XMLTag.swift:33-35 | the filter holds exactly the children with that name |
| XMLTags.ChildrenNamedAppend | Sources/Feeds/Util/XMLReader/XMLTag.swift:33-35 | filtering by name distributes over concatenation, so document order is kept |
| XMLTags.GetChildrenWithName | Sources/Feeds/Util/XMLReader/XMLTag.swift:33-35 | nil iff the children list is nil; otherwise exactly the children with that name, in order |
| XMLTags.ChildrenPrefixedMembers | Sources/Feeds/Util/XMLReader/XMLTag.swift:38-40 | the filter holds exactly the children with that prefix; unprefixed children never match |
| XMLTags.ChildrenPrefixedAppend | Sources/Feeds/Util/XMLReader/XMLTag.swift:38-40 | filtering by prefix distributes over concatenation, so document order is kept |
| XMLTags.GetChildrenWithPrefix | Sources/Feeds/Util/XMLReader/XMLTag.swift:38-40 | nil iff the children list is nil; otherwise exactly the children with that prefix, in order |
| XMLTags.FirstByNameDomain | Sources/Feeds/Util/XMLReader/XMLTag.swift:43-49 | the keys are exactly the child names, and each value is a child of that name |
| XMLTags.FirstByNameIsFirst | Sources/Feeds/Util/XMLReader/XMLTag.swift:33-49 | the entry for n is the first element of the children named n; later duplicates are shadowed |
| XMLTags.FirstByNameHasEveryName | Sources/Feeds/Util/XMLReader/XMLTag.swift:43-49 | every name some child carries is a key |
| XMLTags.GetChildrenDictionary | Sources/Feeds/Util/XMLReader/XMLTag.swift:43-49 | nil iff the children list is nil; the keys are exactly the child names |
| XMLTags.FirstByNameWithPrefixDomain | Sources/Feeds/Util/XMLReader/XMLTag.swift:52-58 | the keys are exactly the names of the children with the prefix, and each value is such a child with that name |
| XMLTags.FirstByNameWithPrefixIsFiltered | Sources/Feeds/Util/XMLReader/XMLTag.swift:52-58 | the prefixed dictionary is the first-wins dictionary of the prefixed children |
| XMLTags.GetChildrenDictionaryWithPrefix | Sources/Feeds/Util/XMLReader/XMLTag.swift:52-58 | nil iff the children list is nil; otherwise the first-wins dictionary of the prefixed children |
| XMLTags.Prefixes | Sources/Feeds/Util/XMLReader/XMLTag.swift:61-67 | the fold collects exactly the non-nil prefixes of the children |
| XMLTags.GetNamespaces | Sources/Feeds/Util/XMLReader/XMLTag.swift:61-67 | nil iff the children list is nil; otherwise exactly the non-nil child prefixes |
| XMLReading.XMLReader.constructor | Sources/Feeds/Util/XMLReader/XMLReader.swift:10-13 | a fresh reader has an empty stack, no current node and an empty prefix table |
| XMLReading.XMLReader.DidStartMappingPrefix | Sources/Feeds/Util/XMLReader/XMLReader.swift:63-67 | a non-empty prefix overwrites the table entry for its URI; an empty one changes nothing |
| XMLReading.XMLReader.DidStartElement | Sources/Feeds/Util/XMLReader/XMLReader.swift:41-61 | the new node has the name, the attributes, no text, an empty children list and the table's prefix for its URI; the old current node is pushed; the table is unchanged |
| XMLReading.XMLReader.FoundCharacters | Sources/Feeds/Util/XMLReader/XMLReader.swift:69-75 | text is appended to the current node's text; with no current node it is dropped |
| XMLReading.XMLReader.DidEndElement | Sources/Feeds/Util/XMLReader/XMLReader.swift:77-84 | the three cases: attach the current node to the top; pop and attach the top; leave a one-node stack alone |
| XMLReading.XMLReader.Read | Sources/Feeds/Util/XMLReader/XMLReader.swift:15-34 | the state after the callbacks is the pure run of them; the result is the bottom of the stack after a successful scan, else dataCorrupted at the empty path |
| XMLReading.FragmentsConcatenate | Sources/Feeds/Util/XMLReader/XMLReader.swift:69-75 | text split into fragments ends up as their concatenation, in order, after the node's earlier text |
| XMLReading.CharactersDropped | Sources/Feeds/Util/XMLReader/XMLReader.swift:69-75 | with no current node, any text callbacks leave the state unchanged |
| XMLReading.DeclarationsTable | Sources/Feeds/Util/XMLReader/XMLReader.swift:63-67 | after declarations of prefixes with distinct URIs, each non-empty prefix is found under its URI, the table holds only those URIs, and the stack is empty |
| XMLReading.OpenAndText | Sources/Feeds/Util/XMLReader/XMLReader.swift:48-75 | a start and its text fragments push the previous current node and make the element, with its resolved prefix and concatenated text, current; the table is unchanged |
| XMLReading.SubtreeAppendsOnce | Sources/Feeds/Util/XMLReader/XMLReader.swift:54-84 | the callbacks of one subtree at any position, with the text laid out at each of its positions and the text after each end, attach exactly that subtree, once, as the last child of the node on top of the stack, and leave the prefix table alone |
| XMLReading.ChildrenAppendInOrder | Sources/Feeds/Util/XMLReader/XMLReader.swift:77-84 | the callbacks of a list of siblings, each followed by the text its position gives (equal siblings may be followed by different text), attach all of them, in document order, to their parent |
| XMLReading.ReadTree | Sources/Feeds/Util/XMLReader/XMLReader.swift:25-84 | from an empty stack, a tree's callbacks under any position-indexed layout leave that tree as the root, or nothing when the root has no child element |
| XMLReading.RoundTrip | Sources/Feeds/Util/XMLReader/XMLReader.swift:25-33 | a fresh reader given the root's prefix declarations and then a tree's callbacks returns that tree, or dataCorrupted when the root has no child element |
| XMLReading.StartsCountNodes | Sources/Feeds/Util/XMLReader/XMLReader.swift:54-60 | a tree has as many nodes as its callbacks have element starts, at any position and under any layout |
| XMLDecoding.CheckNotNull | Sources/Feeds/Decoders/XMLDecoder.swift:89-99 | the node's text when present, else valueNotFound at the given path |
| XMLDecoding.DecodeNil | Sources/Feeds/Decoders/XMLDecoder.swift:265-267 | true exactly when the null check on the node fails |
| XMLDecoding.DecodeString | Sources/Feeds/Decoders/XMLDecoder.swift:282-284 | fails exactly when decodeNil() holds, with valueNotFound at the decoder's path; otherwise the node's text |
| XMLDecoding.ParseBool | Sources/Feeds/Decoders/XMLDecoder.swift:272 | exactly "true" reads as true and "false" as false; every other text is refused |
| XMLDecoding.DecodeBool | Sources/Feeds/Decoders/XMLDecoder.swift:269-280 | nil text is valueNotFound, other non-Boolean text dataCorrupted; Boolean text decodes to its value, and a result is the value the text spells |
| XMLDecoding.UnwrapFixedWidthInteger | Sources/Feeds/Decoders/XMLDecoder.swift:204-259 | empty text is valueNotFound; an in-range direct parse is returned unchanged; a result is in range and is a reading of the text; any other failure is dataCorrupted, with no in-range reading |
| XMLDecoding.DecodeInteger | Sources/Feeds/Decoders/XMLDecoder.swift:294-341 | nil text is valueNotFound; otherwise the text is unwrapped for the width |
| XMLDecoding.IntegerRoundTrip | Sources/Feeds/Decoders/XMLDecoder.swift:209-216 | every value of a width decodes from its decimal rendering |
| XMLDecoding.IntegerOutOfRange | Sources/Feeds/Decoders/XMLDecoder.swift:204-259 | a value outside the width is dataCorrupted |
| XMLDecoding.IntegerWithZeroFraction | Sources/Feeds/Decoders/XMLDecoder.swift:218-250 | "34.0" decodes as 34 |
| XMLDecoding.IntegerWithFractionRejected | Sources/Feeds/Decoders/XMLDecoder.swift:218-258 | "34.5" is dataCorrupted |
| XMLDecoding.KeyedContainerFor | Sources/Feeds/Decoders/XMLDecoder.swift:371-382 | attributes and path come from the decoder; the namespaces are the child prefixes; each element key maps to the first visible child of that name |
| XMLDecoding.Contains | Sources/Feeds/Decoders/XMLDecoder.swift:392-397 | true exactly when the key is in the element map, the attribute map or the namespace set, or is the node's own name |
| XMLDecoding.ContainsOnTree | Sources/Feeds/Decoders/XMLDecoder.swift:392-397 | contains holds iff a visible child has the name, an attribute has it, a child uses it as a prefix, or the node has it |
| XMLDecoding.GetValue | Sources/Feeds/Decoders/XMLDecoder.swift:522-539 | the attribute first, then the child's text, then the node's text; keyNotFound exactly when all three are absent |
| XMLDecoding.GetValuePrecedence | Sources/Feeds/Decoders/XMLDecoder.swift:522-539 | an attribute shadows children; otherwise the first child of the name gives the value, whatever later duplicates hold |
| XMLDecoding.FirstNamedAt | Sources/Feeds/Util/XMLReader/XMLTag.swift:33-35 | the first child named n is the child at the first position holding n |
| XMLDecoding.DecodeNilForKey | Sources/Feeds/Decoders/XMLDecoder.swift:399-402 | true iff the value exists and is ""; a missing value is keyNotFound, not nil |
| XMLDecoding.DecodeBoolForKey | Sources/Feeds/Decoders/XMLDecoder.swift:404-415 | lookup errors pass through; non-Boolean text is dataCorrupted at the decoder's path; Boolean text decodes to its value |
| XMLDecoding.DecodeStringForKey | Sources/Feeds/Decoders/XMLDecoder.swift:417-419 | the key's value, an attribute first; keyNotFound at the container's path exactly when the lookup fails |
| XMLDecoding.DecodeIntegerForKey | Sources/Feeds/Decoders/XMLDecoder.swift:541-544 | lookup errors pass through; otherwise the value is unwrapped for the width |
| XMLDecoding.DecoderForKey | Sources/Feeds/Decoders/XMLDecoder.swift:481-497 | the first child of that name if any, else the same node filtered by the key as a namespace, else dataCorrupted; the path grows by the key |
| XMLDecoding.DecoderForKeyOfCollection | Sources/Feeds/Decoders/XMLDecoder.swift:499-504 | the same node, no namespace, the key appended to the path |
| XMLDecoding.DecodeForKey | Sources/Feeds/Decoders/XMLDecoder.swift:469-479 | collection types take the collection descent, other types the plain descent, whose errors pass through |
| XMLDecoding.NestedContainerForKey | Sources/Feeds/Decoders/XMLDecoder.swift:506-508 | exactly the keyed container of the descended decoder (its attributes, first-wins elements and namespaces), whose path ends in the key; the descent's dataCorrupted otherwise |
| XMLDecoding.NestedUnkeyedArrayForKey | Sources/Feeds/Decoders/XMLDecoder.swift:510-512 | the unkeyed list of the descended decoder, or the descent's dataCorrupted |
| XMLDecoding.UnkeyedArray | Sources/Feeds/Decoders/XMLDecoder.swift:66-83 | with a namespace the prefixed children, else the children named by the last key; valueNotFound exactly when the node has no children list or there is neither a namespace nor a key |
| XMLDecoding.UnkeyedContainerOf | Sources/Feeds/Decoders/XMLDecoder.swift:66-83 | a fresh cursor at 0 over that list, at the decoder's path, or the list's error |
| XMLDecoding.CollectionSeesAllDuplicates | Sources/Feeds/Decoders/XMLDecoder.swift:499-504 | a collection field sees every child of the key's name, while a plain field sees only the first |
| XMLDecoding.NamespaceDescent | Sources/Feeds/Decoders/XMLDecoder.swift:489-490 | descending by a child prefix gives a decoder whose unkeyed list is exactly the children with that prefix |
| XMLDecoding.UnkeyedContainer.constructor | Sources/Feeds/Decoders/XMLDecoder.swift:569-574 | the cursor starts at 0 over the given list |
| XMLDecoding.UnkeyedContainer.Count | Sources/Feeds/Decoders/XMLDecoder.swift:578-580 | the length of the list walked |
| XMLDecoding.UnkeyedContainer.IsAtEnd | Sources/Feeds/Decoders/XMLDecoder.swift:582-584 | the cursor has reached the count, which for a cursor that never passes the end means it sits on it |
| XMLDecoding.UnkeyedContainer.StringAtCurrentIndex | Sources/Feeds/Decoders/XMLDecoder.swift:586-591 | the text under the cursor, or valueNotFound at the decoder's path at the end |
| XMLDecoding.UnkeyedContainer.NextElement | Sources/Feeds/Decoders/XMLDecoder.swift:701-719 | the element under the cursor, or valueNotFound at the path plus "[i]" at the end |
| XMLDecoding.UnkeyedContainer.NextElementDecoder | Sources/Feeds/Decoders/XMLDecoder.swift:693-698 | a decoder on the element under the cursor at the path plus "[i]" |
| XMLDecoding.UnkeyedContainer.DecodeNil | Sources/Feeds/Decoders/XMLDecoder.swift:593-596 | fails at the end; otherwise true iff the element has no text; changes nothing, so the cursor stays |
| XMLDecoding.UnkeyedContainer.DecodeBool | Sources/Feeds/Decoders/XMLDecoder.swift:598-603 | succeeds iff not at end and the text is Boolean; every failure is valueNotFound; changes nothing, so the cursor stays even on success |
| XMLDecoding.UnkeyedContainer.DecodeBoolAdvancing | Sources/Feeds/Decoders/XMLDecoder.swift:598-603 | the same reading, with the cursor advanced by one after a success |
| XMLDecoding.UnkeyedContainer.DecodeString | Sources/Feeds/Decoders/XMLDecoder.swift:605-609 | the text under the cursor, "" for none, and one step forward; at the end valueNotFound and no move |
| XMLDecoding.UnkeyedContainer.DecodeInteger | Sources/Feeds/Decoders/XMLDecoder.swift:721-735 | at the end valueNotFound at path plus "[i]"; no text is valueNotFound at the path; else the unwrap; one step forward only on success |
| XMLDecoding.UnkeyedContainer.Decode | Sources/Feeds/Decoders/XMLDecoder.swift:659-669 | the caller's decoding on the element under the cursor at path plus "[i]"; one step forward only on success |
| XMLDecoding.UnkeyedContainer.NestedContainer | Sources/Feeds/Decoders/XMLDecoder.swift:671-677 | a keyed container on the element under the cursor; one step forward unless at the end |
| XMLDecoding.UnkeyedContainer.NestedUnkeyedContainer | Sources/Feeds/Decoders/XMLDecoder.swift:679-685 | a fresh unkeyed container on the element under the cursor; one step forward only when it could be made |
| XMLDecoding.UnkeyedContainer.SuperDecoder | Sources/Feeds/Decoders/XMLDecoder.swift:687-691 | a decoder on the element under the cursor; one step forward unless at the end |
| XMLDecoding.BoolCursorStalls | Sources/Feeds/Decoders/XMLDecoder.swift:598-603 | on a one-element list, the Bool decode succeeds twice on the same element and never reaches the end; the advancing one does |

## Left out

- The Foundation `XMLParser` that `read` creates and runs is not modelled. Its callbacks are an input sequence of `Event`s, and its success is the `parsed` parameter.
- `XMLTag` is a reference type, but the model holds nodes as values. This is exact here: the reader attaches a node to its parent only after the node's last change.
- Floating-point decoding (`unwrapFloatingPoint`, Double and Float) is not modelled, because it is float numerics.
- The Date strategies, `Data(base64Encoded:)`, `URL(string:)` and `Decimal(string:)` are not modelled. They are Foundation conversions.
- `type.init(from:)`, `decodeIfPresent` and the rest of the `Decodable` machinery are not modelled. Record decoding is a caller-supplied `unwrap` function in `DecodeForKey` and `UnkeyedContainer.Decode`.
- `allKeys` is not modelled, because its order comes from Swift dictionary and set iteration order, which is unspecified.
- The keyed `superDecoder` methods are not modelled. They call `fatalError`.
- The decoding options and `userInfo` are not modelled.
- Errors are not modelled in full. `debugDescription`, `underlyingError` and the type carried by valueNotFound are left out.
- UnwrapFixedWidthInteger: `NSNumber.fromJSONNumber` is not part of this model, and the strict JSON number grammar of its fallback is the model's choice. The real helper may also accept forms the grammar refuses, such as "+34.0", "034.0" or "34.", and it goes through a Double, which can round numbers with many significant digits. Those inputs may be decided differently here.
- Names, keys, attribute names and prefixes are compared as sequences of code points. Swift's `String` equality, and so its Dictionary and Set keys, uses Unicode canonical equivalence. Two names that differ only in normalisation, such as "café" in NFC and NFD, are one key in the source (`XMLTag.swift` lines 34, 45 and 54, `XMLDecoder.swift` lines 393-395, 485-489 and 523-527). The model treats them as two.
- XMLReading.RoundTrip: prefix declarations are taken to come before the root's start, as `xmlns:` attributes on the root do. A declaration on an inner element, and a prefix rebound to another URI part-way through a document, are not covered.
- `FeedParser` (file reading, network fetch, JSON/XML dispatch), the JSON decoder wrapper and the feed model structs are not part of this model.

## Findings

| source | as written | input that shows it | evidently intended | confidence | as-written member | corrected member |
|---|---|---|---|---|---|---|
| Sources/Feeds/Decoders/XMLDecoder.swift:598-603 | the unkeyed `decode(Bool)` returns its value without incrementing `currentIndex`, even on success | an unkeyed list holding one element with text "true": two decodes both return true and `isAtEnd` stays false, so a loop reading Booleans until the end never stops | advance the cursor by one after a successful decode, as the String, integer and generic decodes do (lines 605-609, 659-669, 721-735) | not executed | XMLDecoding.UnkeyedContainer.DecodeBool | XMLDecoding.UnkeyedContainer.DecodeBoolAdvancing |
