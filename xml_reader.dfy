/** The tree builder: a delegate that receives the SAX callbacks of an XML
    scanner (prefix mapping, element start, characters, element end) and
    assembles the elements into one rooted `Tag` tree.

    The state is a stack of partly built elements (`nodes`), the element
    whose text is still being gathered (`currentNode`), and one global table
    from namespace URI to prefix, last write wins. Nodes are held as values:
    an element is attached to its parent only once it will not change any
    more, so no update is ever lost by copying it. */
module XMLReading {
  import opened Coding
  import opened XMLTags

  /** The callbacks of the scanner, in the order it makes them. */
  datatype Event =
    | StartMappingPrefix(prefix: string, uri: string)
    | StartElement(name: string, namespaceURI: Option<string>, attributes: map<string, string>)
    | Characters(text: string)
    | EndElement(name: string, namespaceURI: Option<string>)

  datatype ReaderState = ReaderState(
    nodes: seq<Tag>,
    currentNode: Option<Tag>,
    namespacesMapping: map<string, string>)

  /** A fresh reader. */
  const Initial := ReaderState([], None, map[])

  // ---------------------------------------------------------------------
  // The effect of each callback on the reader's state
  // ---------------------------------------------------------------------

  /** `parent.children?.append(child)`: nothing happens to a node whose
      children list is absent. */
  function AddChild(parent: Tag, child: Tag): Tag
  {
    match parent.children
    case Absent => parent
    case Present(cs) => parent.(children := Present(cs + [child]))
  }

  /** `nodes.last?.children?.append(child)` */
  function AppendToLast(nodes: seq<Tag>, child: Tag): seq<Tag>
  {
    if nodes == [] then [] else nodes[..|nodes| - 1] + [AddChild(nodes[|nodes| - 1], child)]
  }

  /** The prefix recorded for the element's namespace URI, if any. */
  function ResolvePrefix(table: map<string, string>, namespaceURI: Option<string>): Option<string>
  {
    match namespaceURI
    case None => None
    case Some(uri) => if uri in table then Some(table[uri]) else None
  }

  /** The text held so far by a node, "" when it has none. */
  function TextSoFar(t: Tag): string
  {
    match t.value
    case None => ""
    case Some(v) => v
  }

  function OnStartMappingPrefix(s: ReaderState, prefix: string, uri: string): ReaderState
  {
    if prefix != "" then s.(namespacesMapping := s.namespacesMapping[uri := prefix]) else s
  }

  function OnStartElement(s: ReaderState, name: string, namespaceURI: Option<string>,
                          attributes: map<string, string>): ReaderState
  {
    var newNode := Tag(name, ResolvePrefix(s.namespacesMapping, namespaceURI), attributes, None, Present([]));
    var pushed := match s.currentNode
      case None => s.nodes
      case Some(c) => s.nodes + [c];
    s.(nodes := pushed, currentNode := Some(newNode))
  }

  function OnCharacters(s: ReaderState, text: string): ReaderState
  {
    match s.currentNode
    case None => s
    case Some(c) => s.(currentNode := Some(c.(value := Some(TextSoFar(c) + text))))
  }

  function OnEndElement(s: ReaderState): ReaderState
  {
    match s.currentNode
    case Some(c) => s.(nodes := AppendToLast(s.nodes, c), currentNode := None)
    case None =>
      if |s.nodes| > 1 then
        s.(nodes := AppendToLast(s.nodes[..|s.nodes| - 1], s.nodes[|s.nodes| - 1]))
      else s
  }

  function Step(s: ReaderState, e: Event): ReaderState
  {
    match e
    case StartMappingPrefix(prefix, uri) => OnStartMappingPrefix(s, prefix, uri)
    case StartElement(name, uri, attributes) => OnStartElement(s, name, uri, attributes)
    case Characters(text) => OnCharacters(s, text)
    case EndElement(_, _) => OnEndElement(s)
  }

  /** The state after the callbacks `es`, made in order. */
  function Run(s: ReaderState, es: seq<Event>): ReaderState
    decreases |es|
  {
    if es == [] then s else Run(Step(s, es[0]), es[1..])
  }

  /** What `read` returns: the bottom of the stack once the scanner has
      succeeded, and a dataCorrupted error with an empty coding path
      otherwise. */
  function Root(s: ReaderState, parsed: bool): Result<Tag>
  {
    if parsed && s.nodes != [] then Ok(s.nodes[0]) else Err(DataCorrupted([]))
  }

  // ---------------------------------------------------------------------
  // The reader object
  // ---------------------------------------------------------------------

  class XMLReader {
    var nodes: seq<Tag>
    var currentNode: Option<Tag>
    var namespacesMapping: map<string, string>

    function State(): ReaderState
      reads this
    {
      ReaderState(nodes, currentNode, namespacesMapping)
    }

    constructor ()
      ensures State() == Initial
    {
      nodes := [];
      currentNode := None;
      namespacesMapping := map[];
    }

    /** A prefix declaration is recorded only when the prefix is not empty,
        and replaces any earlier prefix for the same URI. */
    method DidStartMappingPrefix(prefix: string, toURI: string)
      modifies this
      ensures prefix != "" ==> namespacesMapping == old(namespacesMapping)[toURI := prefix]
      ensures prefix == "" ==> namespacesMapping == old(namespacesMapping)
      ensures nodes == old(nodes) && currentNode == old(currentNode)
      ensures State() == OnStartMappingPrefix(old(State()), prefix, toURI)
    {
      if prefix != "" {
        namespacesMapping := namespacesMapping[toURI := prefix];
      }
    }

    /** A new element becomes current, with no text and an empty children
        list; the element that was current, if any, is pushed on the stack. */
    method DidStartElement(elementName: string, namespaceURI: Option<string>,
                           attributeDict: map<string, string>)
      modifies this
      ensures currentNode == Some(Tag(elementName, ResolvePrefix(namespacesMapping, namespaceURI),
                                      attributeDict, None, Present([])))
      ensures ResolvePrefix(namespacesMapping, namespaceURI).Some? ==>
                namespaceURI.Some? && namespaceURI.value in namespacesMapping
      ensures old(currentNode).Some? ==> nodes == old(nodes) + [old(currentNode).value]
      ensures old(currentNode).None? ==> nodes == old(nodes)
      ensures namespacesMapping == old(namespacesMapping)
      ensures State() == OnStartElement(old(State()), elementName, namespaceURI, attributeDict)
    {
      var prefix: Option<string> := None;
      if namespaceURI.Some? && namespaceURI.value in namespacesMapping {
        prefix := Some(namespacesMapping[namespaceURI.value]);
      }
      var newNode := Tag(elementName, prefix, attributeDict, None, Present([]));
      if currentNode.Some? {
        nodes := nodes + [currentNode.value];
      }
      currentNode := Some(newNode);
    }

    /** Text is appended to the current element's text; with no current
        element (after a child has closed) it is dropped. */
    method FoundCharacters(text: string)
      modifies this
      ensures old(currentNode).None? ==> currentNode == None
      ensures old(currentNode).Some? ==>
                currentNode == Some(old(currentNode).value.(value := Some(TextSoFar(old(currentNode).value) + text)))
      ensures nodes == old(nodes) && namespacesMapping == old(namespacesMapping)
      ensures State() == OnCharacters(old(State()), text)
    {
      if currentNode.Some? {
        var node := currentNode.value;
        if node.value.Some? {
          currentNode := Some(node.(value := Some(node.value.value + text)));
        } else {
          assert TextSoFar(node) + text == text;
          currentNode := Some(node.(value := Some(text)));
        }
      }
    }

    /** The current element, if any, is attached to the element on top of the
        stack; otherwise the top of a stack of two or more is popped and
        attached to the new top; a stack of one is left alone. */
    method DidEndElement(elementName: string, namespaceURI: Option<string>)
      modifies this
      ensures old(currentNode).Some? ==>
                nodes == AppendToLast(old(nodes), old(currentNode).value) && currentNode == None
      ensures old(currentNode).None? && |old(nodes)| > 1 ==>
                nodes == AppendToLast(old(nodes)[..|old(nodes)| - 1], old(nodes)[|old(nodes)| - 1]) &&
                currentNode == None
      ensures old(currentNode).None? && |old(nodes)| <= 1 ==> nodes == old(nodes) && currentNode == None
      ensures |nodes| == |old(nodes)| || |nodes| == |old(nodes)| - 1
      ensures namespacesMapping == old(namespacesMapping)
      ensures State() == OnEndElement(old(State()))
    {
      if currentNode.Some? {
        if nodes != [] {
          var top := nodes[|nodes| - 1];
          nodes := nodes[..|nodes| - 1] + [AddChild(top, currentNode.value)];
        }
        currentNode := None;
      } else if |nodes| > 1 {
        var node := nodes[|nodes| - 1];
        nodes := nodes[..|nodes| - 1];
        var top := nodes[|nodes| - 1];
        nodes := nodes[..|nodes| - 1] + [AddChild(top, node)];
      }
    }

    /** Feeds the scanner's callbacks to the delegate methods in order, then
        selects the root. `parsed` is the scanner's own verdict on the
        document. */
    method Read(events: seq<Event>, parsed: bool) returns (r: Result<Tag>)
      modifies this
      ensures State() == Run(old(State()), events)
      ensures r == Root(State(), parsed)
      ensures r.Ok? ==> parsed && r.value == nodes[0]
    {
      ghost var s0 := State();
      for i := 0 to |events|
        invariant State() == Run(s0, events[..i])
      {
        RunSnoc(s0, events[..i], events[i]);
        assert events[..i + 1] == events[..i] + [events[i]];
        match events[i]
        case StartMappingPrefix(prefix, uri) => DidStartMappingPrefix(prefix, uri);
        case StartElement(name, uri, attributes) => DidStartElement(name, uri, attributes);
        case Characters(text) => FoundCharacters(text);
        case EndElement(name, uri) => DidEndElement(name, uri);
      }
      assert events[..|events|] == events;
      if parsed && nodes != [] {
        r := Ok(nodes[0]);
      } else {
        r := Err(DataCorrupted([]));
      }
    }
  }

  // ---------------------------------------------------------------------
  // Running callbacks in sequence
  // ---------------------------------------------------------------------

  lemma {:induction false} RunAppend(s: ReaderState, a: seq<Event>, b: seq<Event>)
    ensures Run(s, a + b) == Run(Run(s, a), b)
    decreases |a|
  {
    if a == [] {
      assert a + b == b;
    } else {
      assert (a + b)[0] == a[0] && (a + b)[1..] == a[1..] + b;
      RunAppend(Step(s, a[0]), a[1..], b);
    }
  }

  lemma RunSnoc(s: ReaderState, a: seq<Event>, e: Event)
    ensures Run(s, a + [e]) == Step(Run(s, a), e)
  {
    RunAppend(s, a, [e]);
    assert [e][1..] == [];
  }

  // ---------------------------------------------------------------------
  // Text accumulation
  // ---------------------------------------------------------------------

  function Concat(frags: seq<string>): string
  {
    if frags == [] then "" else frags[0] + Concat(frags[1..])
  }

  function CharacterEvents(frags: seq<string>): (es: seq<Event>)
    ensures |es| == |frags|
  {
    if frags == [] then [] else [Characters(frags[0])] + CharacterEvents(frags[1..])
  }

  /** Text split by the scanner into several fragments ends up as their
      concatenation, in order, after whatever text the element already had;
      nothing else in the state changes. */
  lemma {:induction false} FragmentsConcatenate(s: ReaderState, frags: seq<string>)
    requires s.currentNode.Some? && frags != []
    ensures Run(s, CharacterEvents(frags)) ==
            s.(currentNode := Some(s.currentNode.value.(value := Some(TextSoFar(s.currentNode.value) + Concat(frags)))))
    decreases |frags|
  {
    var c := s.currentNode.value;
    var s1 := Step(s, Characters(frags[0]));
    var es := CharacterEvents(frags);
    assert es[0] == Characters(frags[0]) && es[1..] == CharacterEvents(frags[1..]);
    assert Run(s, es) == Run(s1, CharacterEvents(frags[1..]));
    if frags[1..] == [] {
      assert Concat(frags) == frags[0] + "" == frags[0];
      assert CharacterEvents(frags[1..]) == [];
      assert Run(s, es) == s1;
    } else {
      FragmentsConcatenate(s1, frags[1..]);
      assert TextSoFar(c) + frags[0] + Concat(frags[1..]) == TextSoFar(c) + Concat(frags);
    }
  }

  // ---------------------------------------------------------------------
  // The events of a tree, and reading them back
  // ---------------------------------------------------------------------

  /** Text outside any current element is dropped: after an element has
      closed, character callbacks change nothing until the next start. */
  lemma {:induction false} CharactersDropped(s: ReaderState, frags: seq<string>)
    requires s.currentNode.None?
    ensures Run(s, CharacterEvents(frags)) == s
    decreases |frags|
  {
    if frags != [] {
      var es := CharacterEvents(frags);
      assert es[0] == Characters(frags[0]) && es[1..] == CharacterEvents(frags[1..]);
      assert Step(s, es[0]) == s;
      CharactersDropped(s, frags[1..]);
    }
  }

  /** How a scanner lays out the callbacks of a tree beyond its shape,
      element by element. An element is identified by its position: the
      root is at `[]`, and the k-th child of the element at `pos` is at
      `pos + [k]`. The layout gives the URI reported for each prefix, the
      URI reported for an unprefixed element at a position (the default
      namespace in scope there, if any), the fragments the text of the
      element at a position is split into, and the text (typically
      indentation) reported after its end. Equal subtrees at different
      positions may thus be laid out differently. */
  datatype Layout = Layout(
    uriOf: string -> string,
    defaultNamespace: seq<nat> -> Option<string>,
    text: seq<nat> -> seq<string>,
    trail: seq<nat> -> seq<string>)

  /** The fragments reported for an element's text run together to its
      value, and there are none when it has no value. */
  predicate TextFrom(value: Option<string>, frags: seq<string>)
  {
    match value
    case None => frags == []
    case Some(v) => frags != [] && Concat(frags) == v
  }

  /** The namespace URI the scanner reports for `t` at position `pos`. */
  function NamespaceOf(t: Tag, L: Layout, pos: seq<nat>): Option<string>
  {
    match t.prefix
    case None => L.defaultNamespace(pos)
    case Some(p) => Some(L.uriOf(p))
  }

  /** Trees the reader builds from callbacks laid out by `L`, the tree
      sitting at `pos`, while the prefix table is `table`: every node has a
      children list, its reported namespace resolves through the table to
      its own prefix (or to none), and its text arrives as `L` splits it. */
  predicate Readable(t: Tag, L: Layout, table: map<string, string>, pos: seq<nat>)
  {
    match t.children
    case Absent => false
    case Present(cs) =>
      ResolvePrefix(table, NamespaceOf(t, L, pos)) == t.prefix && TextFrom(t.value, L.text(pos)) &&
      ReadableAll(cs, L, table, pos, 0)
  }

  /** The siblings `cs`, the first being child number `k` of the element at
      `parent`, are each readable at their own positions. */
  predicate ReadableAll(cs: seq<Tag>, L: Layout, table: map<string, string>, parent: seq<nat>, k: nat)
  {
    cs == [] || (Readable(cs[0], L, table, parent + [k]) && ReadableAll(cs[1..], L, table, parent, k + 1))
  }

  function StartOf(t: Tag, L: Layout, pos: seq<nat>): Event
  {
    StartElement(t.name, NamespaceOf(t, L, pos), t.attributes)
  }

  /** The callbacks a scanner makes for the element `t` at `pos`: its
      start, the fragments of its text, its children in order, its end, and
      whatever text follows the end. */
  function Serialize(t: Tag, L: Layout, pos: seq<nat>): seq<Event>
  {
    var children := match t.children
      case Absent => []
      case Present(cs) => SerializeAll(cs, L, pos, 0);
    [StartOf(t, L, pos)] + CharacterEvents(L.text(pos)) + children +
    [EndElement(t.name, NamespaceOf(t, L, pos))] + CharacterEvents(L.trail(pos))
  }

  /** The callbacks of the siblings `cs`, the first being child number `k`
      of the element at `parent`. */
  function SerializeAll(cs: seq<Tag>, L: Layout, parent: seq<nat>, k: nat): seq<Event>
  {
    if cs == [] then [] else Serialize(cs[0], L, parent + [k]) + SerializeAll(cs[1..], L, parent, k + 1)
  }

  /** The prefix declarations a scanner reports ahead of the root's start
      (the `xmlns:` attributes of the root), in order. */
  function Declarations(ps: seq<string>, uriOf: string -> string): (es: seq<Event>)
    ensures |es| == |ps|
  {
    if ps == [] then []
    else Declarations(ps[..|ps| - 1], uriOf) + [StartMappingPrefix(ps[|ps| - 1], uriOf(ps[|ps| - 1]))]
  }

  /** The table built by a fresh reader from declarations of prefixes bound
      to distinct URIs: each non-empty prefix is found under its URI, the
      table holds the URIs of the non-empty prefixes and nothing else (a
      default-namespace declaration, with the empty prefix, is not
      recorded), and no element has been started. */
  lemma {:induction false} DeclarationsTable(ps: seq<string>, uriOf: string -> string)
    requires forall i, j :: (0 <= i < |ps| && 0 <= j < |ps| && ps[i] != "" && ps[j] != "" &&
                             uriOf(ps[i]) == uriOf(ps[j])) ==> ps[i] == ps[j]
    ensures Run(Initial, Declarations(ps, uriOf)).nodes == []
    ensures Run(Initial, Declarations(ps, uriOf)).currentNode == None
    ensures var table := Run(Initial, Declarations(ps, uriOf)).namespacesMapping;
      forall i :: 0 <= i < |ps| && ps[i] != "" ==> uriOf(ps[i]) in table && table[uriOf(ps[i])] == ps[i]
    ensures Run(Initial, Declarations(ps, uriOf)).namespacesMapping.Keys ==
            set i | 0 <= i < |ps| && ps[i] != "" :: uriOf(ps[i])
  {
    if ps != [] {
      var init := ps[..|ps| - 1];
      var p := ps[|ps| - 1];
      DeclarationsTable(init, uriOf);
      var s := Run(Initial, Declarations(init, uriOf));
      RunSnoc(Initial, Declarations(init, uriOf), StartMappingPrefix(p, uriOf(p)));
      var s' := Run(Initial, Declarations(ps, uriOf));
      assert s' == OnStartMappingPrefix(s, p, uriOf(p));
      assert forall i :: 0 <= i < |init| ==> init[i] == ps[i];
      forall i | 0 <= i < |ps| && ps[i] != ""
        ensures uriOf(ps[i]) in s'.namespacesMapping && s'.namespacesMapping[uriOf(ps[i])] == ps[i]
      {
        if i < |init| {
          assert init[i] == ps[i];
        }
      }
      var before := set i | 0 <= i < |init| && init[i] != "" :: uriOf(init[i]);
      var after := set i | 0 <= i < |ps| && ps[i] != "" :: uriOf(ps[i]);
      if p == "" {
        assert after == before by {
          forall u | u in after ensures u in before {
            var i :| 0 <= i < |ps| && ps[i] != "" && u == uriOf(ps[i]);
            assert i < |init| && init[i] == ps[i];
          }
        }
      } else {
        assert after == before + {uriOf(p)} by {
          forall u | u in after ensures u in before + {uriOf(p)} {
            var i :| 0 <= i < |ps| && ps[i] != "" && u == uriOf(ps[i]);
            if i < |init| { assert init[i] == ps[i]; }
          }
          assert uriOf(ps[|ps| - 1]) in after;
        }
      }
    }
  }

  /** The nodes on the stack once the current node, if any, is pushed. */
  function Flushed(s: ReaderState): seq<Tag>
  {
    match s.currentNode
    case None => s.nodes
    case Some(c) => s.nodes + [c]
  }

  /** `parent` with `cs` appended to its children list, if it has one. */
  function AddChildren(parent: Tag, cs: seq<Tag>): Tag
  {
    match parent.children
    case Absent => parent
    case Present(ks) => parent.(children := Present(ks + cs))
  }

  /** The element as it stands right after its start and text callbacks. */
  function Opened(t: Tag): Tag
  {
    Tag(t.name, t.prefix, t.attributes, t.value, Present([]))
  }

  /** An element's start and text callbacks push the element that was
      current and leave the new element current, with its prefix resolved
      and its text gathered. */
  lemma OpenAndText(s: ReaderState, t: Tag, L: Layout, pos: seq<nat>)
    requires ResolvePrefix(s.namespacesMapping, NamespaceOf(t, L, pos)) == t.prefix
    requires TextFrom(t.value, L.text(pos))
    ensures Run(s, [StartOf(t, L, pos)] + CharacterEvents(L.text(pos))).nodes == Flushed(s)
    ensures Run(s, [StartOf(t, L, pos)] + CharacterEvents(L.text(pos))).currentNode == Some(Opened(t))
    ensures Run(s, [StartOf(t, L, pos)] + CharacterEvents(L.text(pos))).namespacesMapping == s.namespacesMapping
  {
    var start := StartOf(t, L, pos);
    RunAppend(s, [start], CharacterEvents(L.text(pos)));
    var s1 := Step(s, start);
    assert Run(s, [start]) == Run(s1, []) == s1;
    assert s1.currentNode == Some(Tag(t.name, t.prefix, t.attributes, None, Present([])));
    match t.value {
      case None =>
        assert CharacterEvents(L.text(pos)) == [];
      case Some(v) =>
        FragmentsConcatenate(s1, L.text(pos));
        assert TextSoFar(s1.currentNode.value) + Concat(L.text(pos)) == v;
    }
  }

  /** Stack discipline: reading the callbacks of one readable element, with
      its parent on top of the stack (or current), attaches exactly that
      element, once, as the last child of its parent, leaves no current
      node, and leaves the prefix table alone; the text after its end is
      dropped. */
  lemma {:induction false} SubtreeAppendsOnce(s: ReaderState, t: Tag, L: Layout, pos: seq<nat>)
    requires Readable(t, L, s.namespacesMapping, pos)
    requires Flushed(s) != []
    ensures Run(s, Serialize(t, L, pos)).nodes == AppendToLast(Flushed(s), t)
    ensures Run(s, Serialize(t, L, pos)).currentNode == None
    ensures Run(s, Serialize(t, L, pos)).namespacesMapping == s.namespacesMapping
    decreases t
  {
    var head := [StartOf(t, L, pos)] + CharacterEvents(L.text(pos));
    var kids := SerializeAll(t.children.list, L, pos, 0);
    var end := EndElement(t.name, NamespaceOf(t, L, pos));
    var trail := CharacterEvents(L.trail(pos));
    assert Serialize(t, L, pos) == head + kids + [end] + trail;
    RunAppend(s, head + kids + [end], trail);
    RunAppend(s, head + kids, [end]);
    RunAppend(s, head, kids);
    OpenAndText(s, t, L, pos);
    var s2 := Run(s, head);
    var s3 := Run(s2, kids);
    assert Run(s3, [end]) == Step(s3, end);
    if t.children.list == [] {
      assert Opened(t) == t;
    } else {
      ChildrenAppendInOrder(s2, t.children.list, L, pos, 0);
      assert Flushed(s2) == Flushed(s) + [Opened(t)];
      assert Flushed(s2)[..|Flushed(s2)| - 1] == Flushed(s);
      assert AddChildren(Opened(t), t.children.list) == t by {
        assert [] + t.children.list == t.children.list;
      }
      assert s3.nodes == Flushed(s) + [t];
      assert (Flushed(s) + [t])[..|Flushed(s)|] == Flushed(s);
    }
    CharactersDropped(Step(s3, end), L.trail(pos));
  }

  /** Reading the callbacks of a non-empty list of siblings appends all of
      them, in order, to the element on top of the stack. */
  lemma {:induction false} ChildrenAppendInOrder(s: ReaderState, cs: seq<Tag>, L: Layout, parent: seq<nat>, k: nat)
    requires cs != []
    requires ReadableAll(cs, L, s.namespacesMapping, parent, k)
    requires Flushed(s) != []
    ensures var f := Flushed(s);
      Run(s, SerializeAll(cs, L, parent, k)).nodes == f[..|f| - 1] + [AddChildren(f[|f| - 1], cs)]
    ensures Run(s, SerializeAll(cs, L, parent, k)).currentNode == None
    ensures Run(s, SerializeAll(cs, L, parent, k)).namespacesMapping == s.namespacesMapping
    decreases cs
  {
    var f := Flushed(s);
    var first := Serialize(cs[0], L, parent + [k]);
    var rest := SerializeAll(cs[1..], L, parent, k + 1);
    assert SerializeAll(cs, L, parent, k) == first + rest;
    RunAppend(s, first, rest);
    SubtreeAppendsOnce(s, cs[0], L, parent + [k]);
    var s1 := Run(s, first);
    var top := f[|f| - 1];
    assert s1.nodes == f[..|f| - 1] + [AddChild(top, cs[0])];
    if cs[1..] == [] {
      assert [cs[0]] == cs;
      assert rest == [];
      assert Run(s1, rest) == s1;
    } else {
      ChildrenAppendInOrder(s1, cs[1..], L, parent, k + 1);
      assert Flushed(s1) == s1.nodes;
      assert s1.nodes[..|s1.nodes| - 1] == f[..|f| - 1];
      match top.children {
        case Absent =>
        case Present(ks) =>
          assert ks + [cs[0]] + cs[1..] == ks + cs;
      }
    }
  }

  /** A reader with an empty stack given the callbacks of a readable tree
      holds that tree as its root, unless the root has no child element, in
      which case nothing was ever pushed and `read` fails with
      dataCorrupted. */
  lemma ReadTree(s: ReaderState, t: Tag, L: Layout)
    requires s.nodes == [] && s.currentNode == None
    requires Readable(t, L, s.namespacesMapping, [])
    ensures Root(Run(s, Serialize(t, L, [])), true) ==
            if ChildList(t) == [] then Err(DataCorrupted([])) else Ok(t)
  {
    var cs := t.children.list;
    var head := [StartOf(t, L, [])] + CharacterEvents(L.text([]));
    var kids := SerializeAll(cs, L, [], 0);
    var end := EndElement(t.name, NamespaceOf(t, L, []));
    var trail := CharacterEvents(L.trail([]));
    assert Serialize(t, L, []) == head + kids + [end] + trail;
    RunAppend(s, head + kids + [end], trail);
    RunAppend(s, head + kids, [end]);
    RunAppend(s, head, kids);
    OpenAndText(s, t, L, []);
    var s2 := Run(s, head);
    var s3 := Run(s2, kids);
    assert Run(s3, [end]) == Step(s3, end);
    if cs == [] {
      assert s3 == s2;
      assert s2.nodes == [];
    } else {
      ChildrenAppendInOrder(s2, cs, L, [], 0);
      assert Flushed(s2) == [Opened(t)];
      assert AddChildren(Opened(t), cs) == t by {
        assert [] + cs == cs;
      }
      assert s3.nodes == [t] && s3.currentNode == None;
      assert Step(s3, end) == s3;
    }
    CharactersDropped(Step(s3, end), L.trail([]));
  }

  /** Round trip: a fresh reader given the prefix declarations of the root
      and then the callbacks of a tree readable under the table they build
      returns that tree (or dataCorrupted for a root without child
      elements). */
  lemma RoundTrip(t: Tag, L: Layout, ps: seq<string>)
    requires Readable(t, L, Run(Initial, Declarations(ps, L.uriOf)).namespacesMapping, [])
    ensures Root(Run(Initial, Declarations(ps, L.uriOf) + Serialize(t, L, [])), true) ==
            if ChildList(t) == [] then Err(DataCorrupted([])) else Ok(t)
  {
    DeclarationsKeepStack(ps, L.uriOf);
    RunAppend(Initial, Declarations(ps, L.uriOf), Serialize(t, L, []));
    ReadTree(Run(Initial, Declarations(ps, L.uriOf)), t, L);
  }

  /** Prefix declarations touch only the prefix table. */
  lemma {:induction false} DeclarationsKeepStack(ps: seq<string>, uriOf: string -> string)
    ensures Run(Initial, Declarations(ps, uriOf)).nodes == []
    ensures Run(Initial, Declarations(ps, uriOf)).currentNode == None
  {
    if ps != [] {
      var init := ps[..|ps| - 1];
      DeclarationsKeepStack(init, uriOf);
      RunSnoc(Initial, Declarations(init, uriOf), StartMappingPrefix(ps[|ps| - 1], uriOf(ps[|ps| - 1])));
    }
  }

  // ---------------------------------------------------------------------
  // Element count
  // ---------------------------------------------------------------------

  function CountStarts(es: seq<Event>): nat
  {
    if es == [] then 0 else (if es[0].StartElement? then 1 else 0) + CountStarts(es[1..])
  }

  lemma {:induction false} CountStartsAppend(a: seq<Event>, b: seq<Event>)
    ensures CountStarts(a + b) == CountStarts(a) + CountStarts(b)
  {
    if a == [] {
      assert a + b == b;
    } else {
      assert (a + b)[0] == a[0] && (a + b)[1..] == a[1..] + b;
      CountStartsAppend(a[1..], b);
    }
  }

  function Size(t: Tag): nat
  {
    match t.children
    case Absent => 1
    case Present(cs) => 1 + SizeAll(cs)
  }

  function SizeAll(cs: seq<Tag>): nat
  {
    if cs == [] then 0 else Size(cs[0]) + SizeAll(cs[1..])
  }

  lemma {:induction false} NoStartsInText(frags: seq<string>)
    ensures CountStarts(CharacterEvents(frags)) == 0
    decreases |frags|
  {
    if frags != [] {
      var es := CharacterEvents(frags);
      assert es[0] == Characters(frags[0]) && es[1..] == CharacterEvents(frags[1..]);
      NoStartsInText(frags[1..]);
    }
  }

  /** A tree has exactly as many nodes as its callbacks have element starts,
      so the root has that number minus one descendants. */
  lemma {:induction false} StartsCountNodes(t: Tag, L: Layout, pos: seq<nat>)
    ensures CountStarts(Serialize(t, L, pos)) == Size(t)
    decreases t
  {
    var start := [StartOf(t, L, pos)];
    var text := CharacterEvents(L.text(pos));
    var end := [EndElement(t.name, NamespaceOf(t, L, pos))];
    var trail := CharacterEvents(L.trail(pos));
    var kids := SerializeAll(ChildList(t), L, pos, 0);
    assert Serialize(t, L, pos) == start + text + kids + end + trail;
    CountStartsAppend(start + text + kids + end, trail);
    CountStartsAppend(start + text + kids, end);
    CountStartsAppend(start + text, kids);
    CountStartsAppend(start, text);
    NoStartsInText(L.text(pos));
    NoStartsInText(L.trail(pos));
    match t.children {
      case Absent =>
      case Present(cs) => StartsCountAll(cs, L, pos, 0);
    }
    assert CountStarts(start) == 1;
    assert CountStarts(end) == 0;
  }

  lemma {:induction false} StartsCountAll(cs: seq<Tag>, L: Layout, parent: seq<nat>, k: nat)
    ensures CountStarts(SerializeAll(cs, L, parent, k)) == SizeAll(cs)
    decreases cs
  {
    if cs != [] {
      CountStartsAppend(Serialize(cs[0], L, parent + [k]), SerializeAll(cs[1..], L, parent, k + 1));
      StartsCountNodes(cs[0], L, parent + [k]);
      StartsCountAll(cs[1..], L, parent, k + 1);
    }
  }
}
