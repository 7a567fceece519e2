/** One XML element as a tree node, and the child queries the decoder is
    built on. Every query folds over the ordered list of direct children;
    a node whose `children` is absent answers None (nil) to all of them. */
module XMLTags {
  import opened Coding

  /** `name` is the local name; `prefix` the namespace prefix resolved when
      the element opened; `value` the text gathered directly inside it. */
  datatype Tag = Tag(
    name: string,
    prefix: Option<string>,
    attributes: map<string, string>,
    value: Option<string>,
    children: Children)

  /** The children list of a node, which may be absent altogether (a node
      with an absent list is not the same as one with an empty list). */
  datatype Children = Absent | Present(list: seq<Tag>)

  /** The children of `t` in document order, [] when the list is absent. */
  function ChildList(t: Tag): seq<Tag>
  {
    match t.children
    case Absent => []
    case Present(cs) => cs
  }

  // ---------------------------------------------------------------------
  // qualifiedName
  // ---------------------------------------------------------------------

  /** "prefix:name" when the element has a prefix, otherwise the bare name. */
  function QualifiedName(t: Tag): (q: string)
    ensures t.prefix.None? ==> q == t.name
    ensures t.prefix.Some? ==> |q| == |t.prefix.value| + 1 + |t.name|
    ensures t.prefix.Some? ==> q[..|t.prefix.value|] == t.prefix.value && q[|t.prefix.value|] == ':'
    ensures t.prefix.Some? ==> q[|t.prefix.value| + 1..] == t.name
  {
    match t.prefix
    case None => t.name
    case Some(p) => p + ":" + t.name
  }

  /** Position of the first ':' in `s`, if any. */
  function ColonIndex(s: string): (r: Option<nat>)
    ensures r.Some? ==> r.value < |s| && s[r.value] == ':' && ':' !in s[..r.value]
    ensures r.None? ==> ':' !in s
  {
    if s == [] then None
    else if s[0] == ':' then Some(0)
    else match ColonIndex(s[1..])
      case None => None
      case Some(i) =>
        assert s[..i + 1] == [s[0]] + s[1..][..i];
        Some(i + 1)
  }

  /** Reads a qualified name back into its prefix and its local name. */
  function SplitQualifiedName(q: string): (Option<string>, string)
  {
    match ColonIndex(q)
    case None => (None, q)
    case Some(i) => (Some(q[..i]), q[i + 1..])
  }

  /** For names in the sense of XML namespaces (no ':' inside a prefix or a
      local name), the qualified name determines prefix and name. */
  lemma QualifiedNameRoundTrip(t: Tag)
    requires ':' !in t.name
    requires t.prefix.Some? ==> ':' !in t.prefix.value
    ensures SplitQualifiedName(QualifiedName(t)) == (t.prefix, t.name)
  {
    var q := QualifiedName(t);
    match t.prefix
    case None =>
    case Some(p) =>
      assert q[|p|] == ':';
  }

  // ---------------------------------------------------------------------
  // getChildren(withName:) and getChildren(withPrefix:)
  // ---------------------------------------------------------------------

  /** The children named `n`, in document order. */
  function ChildrenNamed(cs: seq<Tag>, n: string): (r: seq<Tag>)
    ensures |r| <= |cs|
  {
    if cs == [] then []
    else (if cs[0].name == n then [cs[0]] else []) + ChildrenNamed(cs[1..], n)
  }

  /** The children carrying the prefix `p`, in document order; a child with
      no prefix never matches. */
  function ChildrenPrefixed(cs: seq<Tag>, p: string): (r: seq<Tag>)
    ensures |r| <= |cs|
  {
    if cs == [] then []
    else (if cs[0].prefix == Some(p) then [cs[0]] else []) + ChildrenPrefixed(cs[1..], p)
  }

  /** The children named `n` are exactly the members of `cs` with that name. */
  lemma {:induction false} ChildrenNamedMembers(cs: seq<Tag>, n: string)
    ensures forall c :: c in ChildrenNamed(cs, n) <==> c in cs && c.name == n
  {
    if cs != [] {
      ChildrenNamedMembers(cs[1..], n);
      assert cs == [cs[0]] + cs[1..];
    }
  }

  /** The children with prefix `p` are exactly the members of `cs` with that
      prefix; an unprefixed child is never one of them. */
  lemma {:induction false} ChildrenPrefixedMembers(cs: seq<Tag>, p: string)
    ensures forall c :: c in ChildrenPrefixed(cs, p) <==> c in cs && c.prefix == Some(p)
  {
    if cs != [] {
      ChildrenPrefixedMembers(cs[1..], p);
      assert cs == [cs[0]] + cs[1..];
    }
  }

  /** With no child of that name, the filter is empty. */
  lemma {:induction false} ChildrenNamedNone(cs: seq<Tag>, n: string)
    requires forall c :: c in cs ==> c.name != n
    ensures ChildrenNamed(cs, n) == []
  {
    if cs != [] {
      assert cs[0] in cs;
      ChildrenNamedNone(cs[1..], n);
    }
  }

  /** Filtering by name keeps document order: it distributes over concatenation. */
  lemma {:induction false} ChildrenNamedAppend(a: seq<Tag>, b: seq<Tag>, n: string)
    ensures ChildrenNamed(a + b, n) == ChildrenNamed(a, n) + ChildrenNamed(b, n)
  {
    if a != [] {
      assert (a + b)[0] == a[0] && (a + b)[1..] == a[1..] + b;
      ChildrenNamedAppend(a[1..], b, n);
      var head := if a[0].name == n then [a[0]] else [];
      calc {
        ChildrenNamed(a + b, n);
        head + ChildrenNamed(a[1..] + b, n);
        head + (ChildrenNamed(a[1..], n) + ChildrenNamed(b, n));
        (head + ChildrenNamed(a[1..], n)) + ChildrenNamed(b, n);
        ChildrenNamed(a, n) + ChildrenNamed(b, n);
      }
    } else {
      assert a + b == b;
    }
  }

  /** Filtering by prefix keeps document order: it distributes over concatenation. */
  lemma {:induction false} ChildrenPrefixedAppend(a: seq<Tag>, b: seq<Tag>, p: string)
    ensures ChildrenPrefixed(a + b, p) == ChildrenPrefixed(a, p) + ChildrenPrefixed(b, p)
  {
    if a != [] {
      assert (a + b)[0] == a[0] && (a + b)[1..] == a[1..] + b;
      ChildrenPrefixedAppend(a[1..], b, p);
      var head := if a[0].prefix == Some(p) then [a[0]] else [];
      calc {
        ChildrenPrefixed(a + b, p);
        head + ChildrenPrefixed(a[1..] + b, p);
        head + (ChildrenPrefixed(a[1..], p) + ChildrenPrefixed(b, p));
        (head + ChildrenPrefixed(a[1..], p)) + ChildrenPrefixed(b, p);
        ChildrenPrefixed(a, p) + ChildrenPrefixed(b, p);
      }
    } else {
      assert a + b == b;
    }
  }

  function GetChildrenWithName(t: Tag, n: string): (r: Option<seq<Tag>>)
    ensures r.None? <==> t.children.Absent?
    ensures r.Some? ==> forall c :: c in r.value <==> c in t.children.list && c.name == n
    ensures r.Some? ==> r.value == ChildrenNamed(t.children.list, n)
  {
    match t.children
    case Absent => None
    case Present(cs) =>
      ChildrenNamedMembers(cs, n);
      Some(ChildrenNamed(cs, n))
  }

  function GetChildrenWithPrefix(t: Tag, p: string): (r: Option<seq<Tag>>)
    ensures r.None? <==> t.children.Absent?
    ensures r.Some? ==> forall c :: c in r.value <==> c in t.children.list && c.prefix == Some(p)
    ensures r.Some? ==> r.value == ChildrenPrefixed(t.children.list, p)
  {
    match t.children
    case Absent => None
    case Present(cs) =>
      ChildrenPrefixedMembers(cs, p);
      Some(ChildrenPrefixed(cs, p))
  }

  // ---------------------------------------------------------------------
  // getChildrenDictionary() and getChildrenDictionary(withPrefix:)
  // ---------------------------------------------------------------------

  /** The left fold that inserts each child under its name unless the name is
      already present: the first child of each name wins. */
  function FirstByName(cs: seq<Tag>): map<string, Tag>
  {
    if cs == [] then map[]
    else
      var init, last := cs[..|cs| - 1], cs[|cs| - 1];
      assert cs == init + [last];
      var d := FirstByName(init);
      if last.name in d then d else d[last.name := last]
  }

  /** The same fold restricted to the children carrying prefix `p`. */
  function FirstByNameWithPrefix(cs: seq<Tag>, p: string): map<string, Tag>
  {
    if cs == [] then map[]
    else
      var init, last := cs[..|cs| - 1], cs[|cs| - 1];
      assert cs == init + [last];
      var d := FirstByNameWithPrefix(init, p);
      if last.prefix == Some(p) && last.name !in d then d[last.name := last] else d
  }

  /** The keys of the dictionary are exactly the child names, and each key
      maps to a child of that name. */
  lemma {:induction false} FirstByNameDomain(cs: seq<Tag>)
    ensures FirstByName(cs).Keys == set c | c in cs :: c.name
    ensures forall k :: k in FirstByName(cs) ==> FirstByName(cs)[k] in cs && FirstByName(cs)[k].name == k
  {
    if cs != [] {
      var init, last := cs[..|cs| - 1], cs[|cs| - 1];
      assert cs == init + [last];
      FirstByNameDomain(init);
    }
  }

  /** The dictionary holds, for every child name, the first child of that
      name in document order; later duplicates are shadowed. */
  lemma {:induction false} FirstByNameIsFirst(cs: seq<Tag>, k: string)
    requires k in FirstByName(cs)
    ensures ChildrenNamed(cs, k) != [] && FirstByName(cs)[k] == ChildrenNamed(cs, k)[0]
  {
    var init, last := cs[..|cs| - 1], cs[|cs| - 1];
    assert cs == init + [last];
    ChildrenNamedAppend(init, [last], k);
    assert [last][1..] == [];
    if k in FirstByName(init) {
      FirstByNameIsFirst(init, k);
    } else {
      FirstByNameDomain(init);
      ChildrenNamedNone(init, k);
    }
  }

  /** Every name that some child carries is a key of the dictionary. */
  lemma FirstByNameHasEveryName(cs: seq<Tag>, k: string)
    requires ChildrenNamed(cs, k) != []
    ensures k in FirstByName(cs)
  {
    var c := ChildrenNamed(cs, k)[0];
    assert c in ChildrenNamed(cs, k);
    ChildrenNamedMembers(cs, k);
    FirstByNameDomain(cs);
  }

  /** One step of the first-wins fold: a child is added only under a new name. */
  lemma FirstByNameSnoc(g: seq<Tag>, last: Tag)
    ensures FirstByName(g + [last]) ==
            if last.name in FirstByName(g) then FirstByName(g) else FirstByName(g)[last.name := last]
  {
    var f := g + [last];
    assert f[..|f| - 1] == g && f[|f| - 1] == last;
  }

  /** Filtering by prefix, seen from the last child. */
  lemma ChildrenPrefixedLast(cs: seq<Tag>, p: string)
    requires cs != []
    ensures ChildrenPrefixed(cs, p) ==
            ChildrenPrefixed(cs[..|cs| - 1], p) + (if cs[|cs| - 1].prefix == Some(p) then [cs[|cs| - 1]] else [])
  {
    var init, last := cs[..|cs| - 1], cs[|cs| - 1];
    assert cs == init + [last];
    ChildrenPrefixedAppend(init, [last], p);
    assert [last][1..] == [];
  }

  /** The prefixed dictionary is the plain dictionary of the prefixed children. */
  lemma {:induction false} FirstByNameWithPrefixIsFiltered(cs: seq<Tag>, p: string)
    ensures FirstByNameWithPrefix(cs, p) == FirstByName(ChildrenPrefixed(cs, p))
  {
    if cs != [] {
      var init, last := cs[..|cs| - 1], cs[|cs| - 1];
      ChildrenPrefixedLast(cs, p);
      FirstByNameWithPrefixIsFiltered(init, p);
      var g := ChildrenPrefixed(init, p);
      if last.prefix == Some(p) {
        assert ChildrenPrefixed(cs, p) == g + [last];
        FirstByNameSnoc(g, last);
      } else {
        assert ChildrenPrefixed(cs, p) == g + [];
        assert g + [] == g;
      }
    }
  }

  /** The prefixed dictionary's keys are exactly the names of the children
      carrying the prefix, and each key maps to such a child of that name. */
  lemma FirstByNameWithPrefixDomain(cs: seq<Tag>, p: string)
    ensures FirstByNameWithPrefix(cs, p).Keys == set c | c in cs && c.prefix == Some(p) :: c.name
    ensures forall k :: k in FirstByNameWithPrefix(cs, p) ==>
              FirstByNameWithPrefix(cs, p)[k] in cs && FirstByNameWithPrefix(cs, p)[k].name == k &&
              FirstByNameWithPrefix(cs, p)[k].prefix == Some(p)
  {
    FirstByNameWithPrefixIsFiltered(cs, p);
    FirstByNameDomain(ChildrenPrefixed(cs, p));
    ChildrenPrefixedMembers(cs, p);
    assert (set c | c in ChildrenPrefixed(cs, p) :: c.name) == set c | c in cs && c.prefix == Some(p) :: c.name;
  }

  function GetChildrenDictionary(t: Tag): (r: Option<map<string, Tag>>)
    ensures r.None? <==> t.children.Absent?
    ensures r.Some? ==> r.value.Keys == set c | c in t.children.list :: c.name
    ensures r.Some? ==> r.value == FirstByName(t.children.list)
  {
    match t.children
    case Absent => None
    case Present(cs) =>
      FirstByNameDomain(cs);
      Some(FirstByName(cs))
  }

  function GetChildrenDictionaryWithPrefix(t: Tag, p: string): (r: Option<map<string, Tag>>)
    ensures r.None? <==> t.children.Absent?
    ensures r.Some? ==> r.value.Keys == set c | c in t.children.list && c.prefix == Some(p) :: c.name
    ensures r.Some? ==> r.value == FirstByName(ChildrenPrefixed(t.children.list, p))
  {
    match t.children
    case Absent => None
    case Present(cs) =>
      FirstByNameWithPrefixDomain(cs, p);
      FirstByNameWithPrefixIsFiltered(cs, p);
      Some(FirstByNameWithPrefix(cs, p))
  }

  // ---------------------------------------------------------------------
  // getNamespaces()
  // ---------------------------------------------------------------------

  /** The fold that collects the prefix of every prefixed child. */
  function Prefixes(cs: seq<Tag>): (r: set<string>)
    ensures r == set c | c in cs && c.prefix.Some? :: c.prefix.value
  {
    if cs == [] then {}
    else
      var init, last := cs[..|cs| - 1], cs[|cs| - 1];
      assert cs == init + [last];
      var s := Prefixes(init);
      if last.prefix.Some? then s + {last.prefix.value} else s
  }

  function GetNamespaces(t: Tag): (r: Option<set<string>>)
    ensures r.None? <==> t.children.Absent?
    ensures r.Some? ==> r.value == set c | c in t.children.list && c.prefix.Some? :: c.prefix.value
  {
    match t.children
    case Absent => None
    case Present(cs) => Some(Prefixes(cs))
  }
}
