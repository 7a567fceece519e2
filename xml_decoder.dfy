/** The decode engine: a decoder positioned on one element of the tree, and
    the three views it offers of that element to the code that reads a
    record out of it.

    - The single-value view reads the element's own text.
    - The keyed view reads a field by name: from an attribute, from the
      text of the first child of that name, or from the element's own text;
      it also descends into a child, or into the element itself filtered by
      a namespace prefix.
    - The unkeyed view walks, with a cursor, over the children of the
      element that share the name of the last coding key (or the namespace
      prefix the decoder was given).

    Failures are `DecodingError`s of three kinds only: valueNotFound,
    keyNotFound and dataCorrupted. The decoding options and `userInfo` of a
    decoder play no part in what is modelled here and are not carried. */
module XMLDecoding {
  import opened Coding
  import opened Numerals
  import opened XMLTags

  /** A decoder on `element`. A `namespace` restricts the children it sees
      to those with that prefix; `codingPath` is the chain of keys that led
      here and is reported with every error. */
  datatype Decoder = Decoder(element: Tag, namespace: Option<string>, codingPath: seq<CodingKey>)

  // =====================================================================
  // Single-value view
  // =====================================================================

  /** `checkNotNull`: the element's text, or valueNotFound at `path`. */
  function CheckNotNull(d: Decoder, path: seq<CodingKey>): (r: Result<string>)
    ensures r.Ok? <==> d.element.value.Some?
    ensures r.Ok? ==> r.value == d.element.value.value
    ensures r.Err? ==> r.error == ValueNotFound(path)
  {
    match d.element.value
    case Some(v) => Ok(v)
    case None => Err(ValueNotFound(path))
  }

  /** `decodeNil()`: the element has no text, which is exactly when the
      null check fails. */
  function DecodeNil(d: Decoder): (r: bool)
    ensures r <==> CheckNotNull(d, d.codingPath).Err?
  {
    d.element.value.None?
  }

  /** `decode(String.self)`: fails exactly when the element is nil, with
      valueNotFound at the decoder's own path; otherwise the element's text. */
  function DecodeString(d: Decoder): (r: Result<string>)
    ensures r.Err? <==> DecodeNil(d)
    ensures r.Err? ==> r.error == ValueNotFound(d.codingPath)
    ensures r.Ok? ==> d.element.value == Some(r.value)
  {
    CheckNotNull(d, d.codingPath)
  }

  function BoolText(b: bool): string
  {
    if b then "true" else "false"
  }

  /** Swift's `Bool(_ description:)`: the Boolean texts are exactly the
      renderings of the two values, and nothing else parses. */
  function ParseBool(s: string): (r: Option<bool>)
    ensures r == Some(true) <==> s == BoolText(true)
    ensures r == Some(false) <==> s == BoolText(false)
    ensures r.None? <==> s != "true" && s != "false"
  {
    if s == "true" then Some(true) else if s == "false" then Some(false) else None
  }

  /** `decode(Bool.self)`: nil text is valueNotFound, other text than
      "true"/"false" is dataCorrupted, both at the decoder's path. */
  function DecodeBool(d: Decoder): (r: Result<bool>)
    ensures d.element.value.None? ==> r == Err(ValueNotFound(d.codingPath))
    ensures r.Ok? ==> d.element.value == Some(BoolText(r.value))
    ensures (d.element.value.Some? && d.element.value.value != "true" && d.element.value.value != "false")
              ==> r == Err(DataCorrupted(d.codingPath))
    ensures (d.element.value.Some? && ParseBool(d.element.value.value).Some?)
              ==> r == Ok(ParseBool(d.element.value.value).value)
  {
    match CheckNotNull(d, d.codingPath)
    case Err(e) => Err(e)
    case Ok(v) =>
      match ParseBool(v)
      case Some(b) => Ok(b)
      case None => Err(DataCorrupted(d.codingPath))
  }

  /** `unwrapFixedWidthInteger`: empty text is valueNotFound; text that
      parses directly as a value of the width is returned as is; otherwise
      text that is a JSON number denoting an integer of the width is
      accepted; anything else is dataCorrupted. Errors are reported at the
      decoder's own path (the extra key a caller passes in is not added to
      the reported path). */
  function UnwrapFixedWidthInteger(d: Decoder, number: string, ty: IntType): (r: Result<int>)
    ensures r.Ok? ==> InRange(ty, r.value)
    ensures r.Ok? ==> ParseInteger(number) == Some(r.value) || ExactInteger(number) == Some(r.value)
    ensures (number != "" && ParseInteger(number).Some? && InRange(ty, ParseInteger(number).value))
              ==> r == Ok(ParseInteger(number).value)
    ensures number == "" <==> r == Err(ValueNotFound(d.codingPath))
    ensures r.Err? && number != "" ==> r.error == DataCorrupted(d.codingPath)
    ensures r.Err? && number != "" ==>
              (ParseInteger(number).None? || !InRange(ty, ParseInteger(number).value)) &&
              (ExactInteger(number).None? || !InRange(ty, ExactInteger(number).value))
  {
    if number == "" then Err(ValueNotFound(d.codingPath))
    else
      var direct := ParseInteger(number);
      if direct.Some? && InRange(ty, direct.value) then Ok(direct.value)
      else
        match ExactInteger(number)
        case Some(v) => if InRange(ty, v) then Ok(v) else Err(DataCorrupted(d.codingPath))
        case None => Err(DataCorrupted(d.codingPath))
  }

  /** `decode(IntN.self)` / `decode(UIntN.self)` on the single-value view. */
  function DecodeInteger(d: Decoder, ty: IntType): (r: Result<int>)
    ensures d.element.value.None? ==> r == Err(ValueNotFound(d.codingPath))
    ensures d.element.value.Some? ==> r == UnwrapFixedWidthInteger(d, d.element.value.value, ty)
    ensures r.Ok? ==> InRange(ty, r.value)
  {
    match CheckNotNull(d, d.codingPath)
    case Err(e) => Err(e)
    case Ok(v) => UnwrapFixedWidthInteger(d, v, ty)
  }

  /** Every value of a width is read back from its decimal rendering. */
  lemma IntegerRoundTrip(d: Decoder, v: int, ty: IntType)
    requires InRange(ty, v)
    ensures UnwrapFixedWidthInteger(d, IntToString(v), ty) == Ok(v)
  {
    ParseIntegerRoundTrip(v);
  }

  /** A value outside the width is rejected as dataCorrupted, by both paths. */
  lemma IntegerOutOfRange(d: Decoder, v: int, ty: IntType)
    requires !InRange(ty, v)
    ensures UnwrapFixedWidthInteger(d, IntToString(v), ty) == Err(DataCorrupted(d.codingPath))
  {
    ParseIntegerRoundTrip(v);
    ExactIntegerOfRendering(v);
  }

  /** "34.0" decodes as the integer 34: the fallback accepts a zero fraction. */
  lemma IntegerWithZeroFraction(d: Decoder, v: int, ty: IntType)
    requires InRange(ty, v)
    ensures UnwrapFixedWidthInteger(d, IntToString(v) + ".0", ty) == Ok(v)
  {
    var s := IntToString(v) + ".0";
    assert s[|IntToString(v)|] == '.';
    ExactIntegerZeroFraction(v);
  }

  /** "34.5" is rejected as dataCorrupted: it denotes no integer. */
  lemma IntegerWithFractionRejected(d: Decoder, v: int, k: nat, ty: IntType)
    requires 0 < k < 10
    ensures UnwrapFixedWidthInteger(d, IntToString(v) + "." + [DigitChar(k)], ty) == Err(DataCorrupted(d.codingPath))
  {
    var s := IntToString(v) + "." + [DigitChar(k)];
    assert s[|IntToString(v)|] == '.';
    ExactIntegerRejectsFraction(v, k);
  }

  // =====================================================================
  // Keyed view
  // =====================================================================

  /** The keyed container: the element's attributes, its first-of-each-name
      children (restricted to the decoder's namespace, if it has one) and
      the prefixes used by its children. */
  datatype KeyedContainer = KeyedContainer(
    decoder: Decoder,
    codingPath: seq<CodingKey>,
    attributes: map<string, string>,
    elements: map<string, Tag>,
    namespaces: set<string>)

  /** The children a decoder's keyed and unkeyed views look at. */
  function Visible(d: Decoder): seq<Tag>
  {
    match d.namespace
    case None => ChildList(d.element)
    case Some(ns) => ChildrenPrefixed(ChildList(d.element), ns)
  }

  /** `container(keyedBy:)`: a keyed container on the decoder's element. Each
      key of `elements` names the first visible child of that name. */
  function KeyedContainerFor(d: Decoder): (k: KeyedContainer)
    ensures k.decoder == d && k.codingPath == d.codingPath && k.attributes == d.element.attributes
    ensures k.namespaces == set c | c in ChildList(d.element) && c.prefix.Some? :: c.prefix.value
    ensures k.elements.Keys == set c | c in Visible(d) :: c.name
    ensures forall n :: n in k.elements ==>
              ChildrenNamed(Visible(d), n) != [] && k.elements[n] == ChildrenNamed(Visible(d), n)[0]
  {
    var namespaces := match GetNamespaces(d.element)
      case None => {}
      case Some(s) => s;
    var elements := match d.namespace
      case Some(ns) => (match GetChildrenDictionaryWithPrefix(d.element, ns)
                          case None => map[]
                          case Some(m) => m)
      case None => (match GetChildrenDictionary(d.element)
                      case None => map[]
                      case Some(m) => m);
    assert elements == FirstByName(Visible(d));
    FirstByNameDomain(Visible(d));
    forall n | n in elements
      ensures ChildrenNamed(Visible(d), n) != [] && elements[n] == ChildrenNamed(Visible(d), n)[0]
    {
      FirstByNameIsFirst(Visible(d), n);
    }
    KeyedContainer(d, d.codingPath, d.element.attributes, elements, namespaces)
  }

  /** `contains(_:)`: the key names an element, an attribute or a
      namespace of the container, or the container's own element. */
  function Contains(k: KeyedContainer, key: CodingKey): (r: bool)
    ensures r <==> key.stringValue in k.elements.Keys + k.attributes.Keys + k.namespaces ||
                   key.stringValue == k.decoder.element.name
  {
    key.stringValue in k.elements || key.stringValue in k.attributes ||
    key.stringValue in k.namespaces || k.decoder.element.name == key.stringValue
  }

  /** What `contains` answers on the container of a decoder, stated on the
      tree: a visible child has the name, an attribute has it, a child uses
      it as a prefix, or the element itself has it. */
  lemma ContainsOnTree(d: Decoder, key: CodingKey)
    ensures Contains(KeyedContainerFor(d), key) <==>
              (exists c :: c in Visible(d) && c.name == key.stringValue) ||
              key.stringValue in d.element.attributes ||
              (exists c :: c in ChildList(d.element) && c.prefix == Some(key.stringValue)) ||
              d.element.name == key.stringValue
  {
    var k := KeyedContainerFor(d);
    var n := key.stringValue;
    if exists c :: c in ChildList(d.element) && c.prefix == Some(n) {
      var c :| c in ChildList(d.element) && c.prefix == Some(n);
      assert n in k.namespaces;
    }
    if exists c :: c in Visible(d) && c.name == n {
      var c :| c in Visible(d) && c.name == n;
      assert n in k.elements;
    }
  }

  /** `getValue(forKey:)`: the attribute, else the text of the child of that
      name, else the element's own text; keyNotFound when all are absent. */
  function GetValue(k: KeyedContainer, key: CodingKey): (r: Result<string>)
    ensures key.stringValue in k.attributes ==> r == Ok(k.attributes[key.stringValue])
    ensures (key.stringValue !in k.attributes && key.stringValue in k.elements &&
             k.elements[key.stringValue].value.Some?) ==> r == Ok(k.elements[key.stringValue].value.value)
    ensures r.Err? <==> key.stringValue !in k.attributes &&
                        (key.stringValue !in k.elements || k.elements[key.stringValue].value.None?) &&
                        k.decoder.element.value.None?
    ensures r.Err? ==> r.error == KeyNotFound(key, k.codingPath)
    ensures (r.Ok? && key.stringValue !in k.attributes &&
             (key.stringValue !in k.elements || k.elements[key.stringValue].value.None?))
              ==> Some(r.value) == k.decoder.element.value
  {
    var n := key.stringValue;
    if n in k.attributes then Ok(k.attributes[n])
    else if n in k.elements && k.elements[n].value.Some? then Ok(k.elements[n].value.value)
    else match k.decoder.element.value
      case Some(v) => Ok(v)
      case None => Err(KeyNotFound(key, k.codingPath))
  }

  /** On a decoder's container, an attribute shadows every child of the
      same name; otherwise, when the first visible child of that name has
      text, that text is the value, whatever later children of that name
      hold. */
  lemma GetValuePrecedence(d: Decoder, key: CodingKey, i: nat)
    requires i < |Visible(d)| && Visible(d)[i].name == key.stringValue && Visible(d)[i].value.Some?
    requires forall j :: 0 <= j < i ==> Visible(d)[j].name != key.stringValue
    ensures key.stringValue in d.element.attributes ==>
              GetValue(KeyedContainerFor(d), key) == Ok(d.element.attributes[key.stringValue])
    ensures key.stringValue !in d.element.attributes ==>
              GetValue(KeyedContainerFor(d), key) == Ok(Visible(d)[i].value.value)
  {
    var k := KeyedContainerFor(d);
    var n := key.stringValue;
    assert Visible(d)[i] in Visible(d);
    assert n in k.elements;
    FirstNamedAt(Visible(d), n, i);
  }

  /** The first child named `n` is the one at the first position holding
      that name. */
  lemma {:induction false} FirstNamedAt(cs: seq<Tag>, n: string, i: nat)
    requires i < |cs| && cs[i].name == n
    requires forall j :: 0 <= j < i ==> cs[j].name != n
    ensures ChildrenNamed(cs, n) != [] && ChildrenNamed(cs, n)[0] == cs[i]
  {
    if i > 0 {
      FirstNamedAt(cs[1..], n, i - 1);
    }
  }

  /** `decodeNil(forKey:)`: the value exists and is the empty string. A
      missing value is not nil but keyNotFound. */
  function DecodeNilForKey(k: KeyedContainer, key: CodingKey): (r: Result<bool>)
    ensures r.Ok? <==> GetValue(k, key).Ok?
    ensures r.Ok? ==> (r.value <==> GetValue(k, key).value == "")
    ensures r.Err? ==> r.error == KeyNotFound(key, k.codingPath)
  {
    match GetValue(k, key)
    case Err(e) => Err(e)
    case Ok(v) => Ok(v == "")
  }

  /** `decode(Bool.self, forKey:)`: a value other than "true"/"false" is
      dataCorrupted at the decoder's path. */
  function DecodeBoolForKey(k: KeyedContainer, key: CodingKey): (r: Result<bool>)
    ensures GetValue(k, key).Err? ==> r == Err(GetValue(k, key).error)
    ensures r.Ok? ==> GetValue(k, key) == Ok(BoolText(r.value))
    ensures (GetValue(k, key).Ok? && GetValue(k, key).value != "true" && GetValue(k, key).value != "false")
              ==> r == Err(DataCorrupted(k.decoder.codingPath))
    ensures (GetValue(k, key).Ok? && ParseBool(GetValue(k, key).value).Some?)
              ==> r == Ok(ParseBool(GetValue(k, key).value).value)
  {
    match GetValue(k, key)
    case Err(e) => Err(e)
    case Ok(v) =>
      match ParseBool(v)
      case Some(b) => Ok(b)
      case None => Err(DataCorrupted(k.decoder.codingPath))
  }

  /** `decode(String.self, forKey:)`: the key's value as it is, with the
      attribute taking precedence, and keyNotFound when there is none. */
  function DecodeStringForKey(k: KeyedContainer, key: CodingKey): (r: Result<string>)
    ensures key.stringValue in k.attributes ==> r == Ok(k.attributes[key.stringValue])
    ensures r.Err? <==> GetValue(k, key).Err?
    ensures r.Err? ==> r.error == KeyNotFound(key, k.codingPath)
    ensures r.Ok? ==> r == GetValue(k, key)
  {
    GetValue(k, key)
  }

  /** `decode(IntN.self, forKey:)` / `decode(UIntN.self, forKey:)` */
  function DecodeIntegerForKey(k: KeyedContainer, key: CodingKey, ty: IntType): (r: Result<int>)
    ensures GetValue(k, key).Err? ==> r == Err(GetValue(k, key).error)
    ensures GetValue(k, key).Ok? ==> r == UnwrapFixedWidthInteger(k.decoder, GetValue(k, key).value, ty)
    ensures r.Ok? ==> InRange(ty, r.value)
  {
    match GetValue(k, key)
    case Err(e) => Err(e)
    case Ok(v) => UnwrapFixedWidthInteger(k.decoder, v, ty)
  }

  /** `decoderForKey`: into the first child of that name if there is one;
      else, if some child uses the key as a prefix, onto the same element
      filtered by that namespace; else dataCorrupted at the container's path.
      The new decoder's path is the container's path and the key. */
  function DecoderForKey(k: KeyedContainer, key: CodingKey): (r: Result<Decoder>)
    ensures r.Ok? ==> r.value.codingPath == k.codingPath + [key]
    ensures key.stringValue in k.elements ==>
              r.Ok? && r.value.element == k.elements[key.stringValue] && r.value.namespace.None?
    ensures key.stringValue !in k.elements && key.stringValue in k.namespaces ==>
              r.Ok? && r.value.element == k.decoder.element && r.value.namespace == Some(key.stringValue)
    ensures r.Err? <==> key.stringValue !in k.elements && key.stringValue !in k.namespaces
    ensures r.Err? ==> r.error == DataCorrupted(k.codingPath)
  {
    var path := k.codingPath + [key];
    if key.stringValue in k.elements then Ok(Decoder(k.elements[key.stringValue], None, path))
    else if key.stringValue in k.namespaces then Ok(Decoder(k.decoder.element, Some(key.stringValue), path))
    else Err(DataCorrupted(k.codingPath))
  }

  /** `decoderForKeyOfCollection`: the same element, no namespace, the key
      appended to the path (so the unkeyed view will look for children
      named by the key). */
  function DecoderForKeyOfCollection(k: KeyedContainer, key: CodingKey): (d: Decoder)
    ensures d.element == k.decoder.element && d.namespace.None?
    ensures d.codingPath == k.codingPath + [key] && d.codingPath[|d.codingPath| - 1] == key
  {
    Decoder(k.decoder.element, None, k.codingPath + [key])
  }

  /** `decode(_:forKey:)` for any other type: a collection type takes the
      collection descent, any other type the plain descent; `unwrap` stands
      for that type's own decoding from the new decoder. */
  function DecodeForKey<T>(k: KeyedContainer, key: CodingKey, isCollection: bool,
                           unwrap: Decoder -> Result<T>): (r: Result<T>)
    ensures isCollection ==> r == unwrap(DecoderForKeyOfCollection(k, key))
    ensures !isCollection && DecoderForKey(k, key).Err? ==> r == Err(DecoderForKey(k, key).error)
    ensures !isCollection && DecoderForKey(k, key).Ok? ==> r == unwrap(DecoderForKey(k, key).value)
  {
    if isCollection then unwrap(DecoderForKeyOfCollection(k, key))
    else match DecoderForKey(k, key)
      case Err(e) => Err(e)
      case Ok(d) => unwrap(d)
  }

  /** `nestedContainer(keyedBy:forKey:)` */
  function NestedContainerForKey(k: KeyedContainer, key: CodingKey): (r: Result<KeyedContainer>)
    ensures r.Ok? <==> DecoderForKey(k, key).Ok?
    ensures r.Ok? ==> r.value.decoder == DecoderForKey(k, key).value && r.value.codingPath == k.codingPath + [key]
    ensures r.Ok? ==> r.value == KeyedContainerFor(DecoderForKey(k, key).value)
    ensures r.Err? ==> r.error == DataCorrupted(k.codingPath)
  {
    match DecoderForKey(k, key)
    case Err(e) => Err(e)
    case Ok(d) => Ok(KeyedContainerFor(d))
  }

  /** `nestedUnkeyedContainer(forKey:)`: the element list of the unkeyed
      container it creates. */
  function NestedUnkeyedArrayForKey(k: KeyedContainer, key: CodingKey): (r: Result<seq<Tag>>)
    ensures DecoderForKey(k, key).Err? ==> r == Err(DataCorrupted(k.codingPath))
    ensures DecoderForKey(k, key).Ok? ==> r == UnkeyedArray(DecoderForKey(k, key).value)
  {
    match DecoderForKey(k, key)
    case Err(e) => Err(e)
    case Ok(d) => UnkeyedArray(d)
  }

  // =====================================================================
  // Unkeyed view
  // =====================================================================

  /** `unkeyedContainer()`'s element list: with a namespace, the children
      with that prefix; otherwise the children named by the last key of the
      path; valueNotFound when the element has no children list or there is
      neither a namespace nor a key. */
  function UnkeyedArray(d: Decoder): (r: Result<seq<Tag>>)
    ensures r.Err? <==> d.element.children.Absent? || (d.namespace.None? && d.codingPath == [])
    ensures r.Err? ==> r.error == ValueNotFound(d.codingPath)
    ensures r.Ok? && d.namespace.Some? ==> r.value == ChildrenPrefixed(ChildList(d.element), d.namespace.value)
    ensures r.Ok? && d.namespace.None? ==>
              r.value == ChildrenNamed(ChildList(d.element), d.codingPath[|d.codingPath| - 1].stringValue)
  {
    var found := match d.namespace
      case Some(ns) => GetChildrenWithPrefix(d.element, ns)
      case None =>
        if d.codingPath != [] then GetChildrenWithName(d.element, d.codingPath[|d.codingPath| - 1].stringValue)
        else None;
    match found
    case None => Err(ValueNotFound(d.codingPath))
    case Some(a) => Ok(a)
  }

  /** Collection fields see every child of the key's name, in document
      order, while a plain field of the same name sees only the first. */
  lemma CollectionSeesAllDuplicates(d: Decoder, key: CodingKey)
    requires d.element.children.Present?
    ensures UnkeyedArray(DecoderForKeyOfCollection(KeyedContainerFor(d), key)) ==
              Ok(ChildrenNamed(ChildList(d.element), key.stringValue))
    ensures d.namespace.None? && key.stringValue in KeyedContainerFor(d).elements ==>
              DecoderForKey(KeyedContainerFor(d), key).value.element ==
              ChildrenNamed(ChildList(d.element), key.stringValue)[0]
  {
  }

  /** Descending by a prefix that no child is named after gives a decoder on
      the same element whose unkeyed view is exactly the children carrying
      that prefix, in document order. */
  lemma NamespaceDescent(d: Decoder, key: CodingKey)
    requires d.element.children.Present?
    requires exists c :: c in ChildList(d.element) && c.prefix == Some(key.stringValue)
    requires forall c :: c in Visible(d) ==> c.name != key.stringValue
    ensures DecoderForKey(KeyedContainerFor(d), key).Ok?
    ensures UnkeyedArray(DecoderForKey(KeyedContainerFor(d), key).value) ==
              Ok(ChildrenPrefixed(ChildList(d.element), key.stringValue))
  {
    var k := KeyedContainerFor(d);
    var c :| c in ChildList(d.element) && c.prefix == Some(key.stringValue);
    assert key.stringValue in k.namespaces;
    assert key.stringValue !in k.elements;
  }

  /** The unkeyed container: the list it walks and the cursor into it. The
      cursor never passes the end. */
  class UnkeyedContainer {
    const decoder: Decoder
    const items: seq<Tag>
    const codingPath: seq<CodingKey>
    var currentIndex: nat

    predicate Valid()
      reads this
    {
      currentIndex <= |items|
    }

    constructor (decoder: Decoder, codingPath: seq<CodingKey>, items: seq<Tag>)
      ensures this.decoder == decoder && this.codingPath == codingPath && this.items == items
      ensures currentIndex == 0 && Valid()
    {
      this.decoder := decoder;
      this.codingPath := codingPath;
      this.items := items;
      currentIndex := 0;
    }

    /** `count`: the length of the list walked. */
    function Count(): (n: nat)
      ensures n == |items|
    {
      |items|
    }

    /** `isAtEnd`: the cursor has reached the count; since it never passes
        the end, that is exactly when it sits on the end. */
    predicate IsAtEnd()
      reads this
      ensures Valid() ==> (IsAtEnd() <==> currentIndex == |items|)
    {
      currentIndex >= Count()
    }

    /** `decodeStringAtCurrentIndex`: the text of the element under the
        cursor (None when it has none); at the end, valueNotFound at the
        decoder's path. */
    function StringAtCurrentIndex(): (r: Result<Option<string>>)
      reads this
      ensures r.Err? <==> currentIndex >= |items|
      ensures r.Err? ==> r.error == ValueNotFound(decoder.codingPath)
      ensures r.Ok? ==> r.value == items[currentIndex].value
    {
      if IsAtEnd() then Err(ValueNotFound(decoder.codingPath)) else Ok(items[currentIndex].value)
    }

    /** `getNextElement`: the element under the cursor; at the end,
        valueNotFound at the container's path extended by the index key. */
    function NextElement(): (r: Result<Tag>)
      reads this
      ensures r.Err? <==> currentIndex >= |items|
      ensures r.Err? ==> r.error == ValueNotFound(codingPath + [IndexKey(currentIndex)])
      ensures r.Ok? ==> r.value == items[currentIndex]
    {
      if IsAtEnd() then Err(ValueNotFound(codingPath + [IndexKey(currentIndex)])) else Ok(items[currentIndex])
    }

    /** `decoderForNextElement`: a decoder on the element under the cursor,
        at the container's path extended by "[i]" for cursor position i. */
    function NextElementDecoder(): (r: Result<Decoder>)
      reads this
      ensures r.Err? <==> currentIndex >= |items|
      ensures r.Err? ==> r.error == ValueNotFound(codingPath + [IndexKey(currentIndex)])
      ensures r.Ok? ==> r.value == Decoder(items[currentIndex], None, codingPath + [IndexKey(currentIndex)])
    {
      match NextElement()
      case Err(e) => Err(e)
      case Ok(element) => Ok(Decoder(element, None, codingPath + [IndexKey(currentIndex)]))
    }

    /** `decodeNil()`: whether the element under the cursor has no text. The
        method changes nothing, so the cursor never moves. */
    method DecodeNil() returns (r: Result<bool>)
      requires Valid()
      ensures r.Err? <==> IsAtEnd()
      ensures r.Err? ==> r.error == ValueNotFound(decoder.codingPath)
      ensures r.Ok? ==> (r.value <==> items[currentIndex].value.None?)
    {
      var decoded := StringAtCurrentIndex();
      match decoded {
        case Err(e) => r := Err(e);
        case Ok(s) => r := Ok(s.None?);
      }
    }

    /** `decode(Bool.self)` as written: every failure (at the end, no text,
        text other than "true"/"false") is valueNotFound at the decoder's
        path, and the method changes nothing, so even a success leaves the
        cursor where it was. */
    method DecodeBool() returns (r: Result<bool>)
      requires Valid()
      ensures r.Ok? <==> !IsAtEnd() && items[currentIndex].value.Some? &&
                         ParseBool(items[currentIndex].value.value).Some?
      ensures r.Ok? ==> items[currentIndex].value == Some(BoolText(r.value))
      ensures r.Err? ==> r.error == ValueNotFound(decoder.codingPath)
    {
      var decoded := StringAtCurrentIndex();
      if decoded.Ok? && decoded.value.Some? && ParseBool(decoded.value.value).Some? {
        r := Ok(ParseBool(decoded.value.value).value);
      } else {
        r := Err(ValueNotFound(decoder.codingPath));
      }
    }

    /** `decode(Bool.self)` with the cursor advanced after a success, as for
        every other successful decode. */
    method DecodeBoolAdvancing() returns (r: Result<bool>)
      requires Valid()
      modifies this
      ensures Valid()
      ensures r.Ok? <==> !old(IsAtEnd()) && items[old(currentIndex)].value.Some? &&
                         ParseBool(items[old(currentIndex)].value.value).Some?
      ensures r.Ok? ==> items[old(currentIndex)].value == Some(BoolText(r.value))
      ensures r.Err? ==> r.error == ValueNotFound(decoder.codingPath)
      ensures currentIndex == old(currentIndex) + (if r.Ok? then 1 else 0)
    {
      r := DecodeBool();
      if r.Ok? {
        currentIndex := currentIndex + 1;
      }
    }

    /** `decode(String.self)`: the text under the cursor, "" for an element
        without text; advances by one unless at the end. */
    method DecodeString() returns (r: Result<string>)
      requires Valid()
      modifies this
      ensures Valid()
      ensures r.Err? <==> old(IsAtEnd())
      ensures r.Err? ==> r.error == ValueNotFound(decoder.codingPath)
      ensures r.Ok? ==> r.value == match items[old(currentIndex)].value case None => "" case Some(v) => v
      ensures currentIndex == old(currentIndex) + (if r.Ok? then 1 else 0)
    {
      var decoded := StringAtCurrentIndex();
      match decoded {
        case Err(e) =>
          r := Err(e);
        case Ok(s) =>
          r := Ok(match s case None => "" case Some(v) => v);
          currentIndex := currentIndex + 1;
      }
    }

    /** `decode(IntN.self)` / `decode(UIntN.self)`: at the end, valueNotFound
        at the path and index key; an element without text, valueNotFound at
        the container's path; otherwise the text is unwrapped as on the
        single-value view. Advances by one only on success. */
    method DecodeInteger(ty: IntType) returns (r: Result<int>)
      requires Valid()
      modifies this
      ensures Valid()
      ensures old(IsAtEnd()) ==> r == Err(ValueNotFound(codingPath + [IndexKey(old(currentIndex))]))
      ensures !old(IsAtEnd()) && items[old(currentIndex)].value.None? ==> r == Err(ValueNotFound(codingPath))
      ensures !old(IsAtEnd()) && items[old(currentIndex)].value.Some? ==>
                r == UnwrapFixedWidthInteger(decoder, items[old(currentIndex)].value.value, ty)
      ensures r.Ok? ==> InRange(ty, r.value)
      ensures currentIndex == old(currentIndex) + (if r.Ok? then 1 else 0)
    {
      var element := NextElement();
      if element.Err? {
        return Err(element.error);
      }
      match element.value.value {
        case None =>
          r := Err(ValueNotFound(codingPath));
        case Some(number) =>
          r := UnwrapFixedWidthInteger(decoder, number, ty);
          if r.Ok? {
            currentIndex := currentIndex + 1;
          }
      }
    }

    /** `decode(_:)` for any other type: `unwrap` reads the value from a
        decoder on the element under the cursor; advances only on success. */
    method Decode<T>(unwrap: Decoder -> Result<T>) returns (r: Result<T>)
      requires Valid()
      modifies this
      ensures Valid()
      ensures old(IsAtEnd()) ==> r == Err(ValueNotFound(codingPath + [IndexKey(old(currentIndex))]))
      ensures !old(IsAtEnd()) ==>
                r == unwrap(Decoder(items[old(currentIndex)], None, codingPath + [IndexKey(old(currentIndex))]))
      ensures currentIndex == old(currentIndex) + (if r.Ok? then 1 else 0)
    {
      var next := NextElementDecoder();
      match next {
        case Err(e) =>
          r := Err(e);
        case Ok(d) =>
          r := unwrap(d);
          if r.Ok? {
            currentIndex := currentIndex + 1;
          }
      }
    }

    /** `nestedContainer(keyedBy:)`: a keyed container on the element under
        the cursor; advances unless at the end. */
    method NestedContainer() returns (r: Result<KeyedContainer>)
      requires Valid()
      modifies this
      ensures Valid()
      ensures old(IsAtEnd()) ==> r == Err(ValueNotFound(codingPath + [IndexKey(old(currentIndex))]))
      ensures !old(IsAtEnd()) ==>
                r == Ok(KeyedContainerFor(Decoder(items[old(currentIndex)], None, codingPath + [IndexKey(old(currentIndex))])))
      ensures currentIndex == old(currentIndex) + (if r.Ok? then 1 else 0)
    {
      var next := NextElementDecoder();
      match next {
        case Err(e) =>
          r := Err(e);
        case Ok(d) =>
          r := Ok(KeyedContainerFor(d));
          currentIndex := currentIndex + 1;
      }
    }

    /** `nestedUnkeyedContainer()`: a fresh unkeyed container on the element
        under the cursor; advances only when one could be made. */
    method NestedUnkeyedContainer() returns (r: Result<UnkeyedContainer>)
      requires Valid()
      modifies this
      ensures Valid()
      ensures old(IsAtEnd()) ==> r == Err(ValueNotFound(codingPath + [IndexKey(old(currentIndex))]))
      ensures !old(IsAtEnd()) ==>
                var d := Decoder(items[old(currentIndex)], None, codingPath + [IndexKey(old(currentIndex))]);
                (r.Err? <==> UnkeyedArray(d).Err?) &&
                (r.Err? ==> r.error == UnkeyedArray(d).error) &&
                (r.Ok? ==> fresh(r.value) && r.value.decoder == d && r.value.codingPath == d.codingPath &&
                           r.value.items == UnkeyedArray(d).value && r.value.currentIndex == 0 && r.value.Valid())
      ensures currentIndex == old(currentIndex) + (if r.Ok? then 1 else 0)
    {
      var next := NextElementDecoder();
      match next {
        case Err(e) =>
          r := Err(e);
        case Ok(d) =>
          r := UnkeyedContainerOf(d);
          if r.Ok? {
            currentIndex := currentIndex + 1;
          }
      }
    }

    /** `superDecoder()`: a decoder on the element under the cursor;
        advances unless at the end. */
    method SuperDecoder() returns (r: Result<Decoder>)
      requires Valid()
      modifies this
      ensures Valid()
      ensures old(IsAtEnd()) ==> r == Err(ValueNotFound(codingPath + [IndexKey(old(currentIndex))]))
      ensures !old(IsAtEnd()) ==>
                r == Ok(Decoder(items[old(currentIndex)], None, codingPath + [IndexKey(old(currentIndex))]))
      ensures currentIndex == old(currentIndex) + (if r.Ok? then 1 else 0)
    {
      r := NextElementDecoder();
      if r.Ok? {
        currentIndex := currentIndex + 1;
      }
    }
  }

  /** `unkeyedContainer()`: a fresh cursor at position 0 over the decoder's
      unkeyed element list, at the decoder's path. */
  method UnkeyedContainerOf(d: Decoder) returns (r: Result<UnkeyedContainer>)
    ensures r.Err? <==> UnkeyedArray(d).Err?
    ensures r.Err? ==> r.error == UnkeyedArray(d).error
    ensures r.Ok? ==> fresh(r.value) && r.value.decoder == d && r.value.codingPath == d.codingPath &&
                      r.value.items == UnkeyedArray(d).value && r.value.currentIndex == 0 && r.value.Valid()
  {
    match UnkeyedArray(d) {
      case Err(e) =>
        r := Err(e);
      case Ok(items) =>
        var c := new UnkeyedContainer(d, d.codingPath, items);
        r := Ok(c);
    }
  }

  /** Over a list of one element holding "true", the as-written Boolean
      decode succeeds and succeeds again on the same element: the cursor
      never reaches the end, so a loop reading Booleans until `isAtEnd`
      does not terminate. The advancing decode reaches the end after one
      read. */
  method BoolCursorStalls() returns (first: Result<bool>, second: Result<bool>, atEnd: bool,
                                     advanced: Result<bool>, finished: bool)
    ensures first == Ok(true) && second == Ok(true) && !atEnd
    ensures advanced == Ok(true) && finished
  {
    var item := Tag("flag", None, map[], Some("true"), Present([]));
    var d := Decoder(item, None, [StringKey("flag")]);
    var c := new UnkeyedContainer(d, d.codingPath, [item]);
    first := c.DecodeBool();
    second := c.DecodeBool();
    atEnd := c.IsAtEnd();
    var fixed := new UnkeyedContainer(d, d.codingPath, [item]);
    advanced := fixed.DecodeBoolAdvancing();
    finished := fixed.IsAtEnd();
  }
}
