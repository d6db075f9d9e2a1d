/**
 * Rendering of one HTML document per namespace (generator.py): symbols are
 * sorted by identifier, split into seven categories in a fixed order, and
 * each non-empty category becomes an `h2` heading followed by, per symbol,
 * an `h3` with its identifier and one `p` per description section.
 *
 * The document is modelled as a tree of elements; serialising it to text is
 * not part of this model.
 */
module Generator {
  import opened Results
  import opened Strings
  import opened Collections
  import opened SymbolTypes
  import opened SourceModel

  // ---------------------------------------------------------------------------
  // Elements

  /** An element: its tag, its text child if it has one, and its element children. */
  datatype Element = Element(tag: string, text: Option<string>, children: seq<Element>)

  /** The text of an element, or the empty string when it has no text child. */
  function TextOf(e: Element): string {
    if e.text.Some? then e.text.value else ""
  }

  /** An element with the content as its text child, unless the content is absent or empty. */
  function MakeElement(tagname: string, content: Option<string>): (e: Element)
    ensures e.tag == tagname && e.children == []
    ensures e.text.Some? <==> content.Some? && content.value != ""
    ensures TextOf(e) == if content.Some? then content.value else ""
  {
    if content.Some? && content.value != "" then Element(tagname, content, [])
    else Element(tagname, None, [])
  }

  /** The texts of the elements tagged `tag`, in order. */
  function TextsTagged(nodes: seq<Element>, tag: string): seq<string> {
    if nodes == [] then []
    else (if nodes[0].tag == tag then [TextOf(nodes[0])] else []) + TextsTagged(nodes[1..], tag)
  }

  lemma {:induction false} TextsTaggedAppend(a: seq<Element>, b: seq<Element>, tag: string)
    ensures TextsTagged(a + b, tag) == TextsTagged(a, tag) + TextsTagged(b, tag)
  {
    if a != [] {
      assert (a + b)[0] == a[0] && (a + b)[1..] == a[1..] + b;
      TextsTaggedAppend(a[1..], b, tag);
    } else {
      assert a + b == b;
    }
  }

  // ---------------------------------------------------------------------------
  // Categories

  /** Whether the symbol is declared static. */
  function IsStatic(symbol: Symbol): (r: bool)
    ensures r <==> symbol.isStatic
  {
    symbol.isStatic
  }

  /** The complement of `IsStatic`: every symbol satisfies exactly one of the two. */
  function IsNotStatic(symbol: Symbol): (r: bool)
    ensures r <==> !IsStatic(symbol)
  {
    !IsStatic(symbol)
  }

  /** The symbols of the given type, in their order. */
  function SymbolsOfType(symbols: seq<Symbol>, symbolType: SymbolType): (r: seq<Symbol>)
    ensures forall s :: s in r ==> s in symbols && s.kind == symbolType
    ensures forall s :: s in symbols && s.kind == symbolType ==> s in r
  {
    Filter((s: Symbol) => s.kind == symbolType, symbols)
  }

  /** The sections of a namespace's document. */
  datatype Category =
    | Constructors | Interfaces | Enumerations
    | InstanceMethods | InstanceProperties | StaticMethods | StaticProperties
  {
    /** The text of the category's `h2` heading. */
    function Heading(): string {
      match this
      case Constructors => "Constructor"
      case Interfaces => "Interface"
      case Enumerations => "Enumerations"
      case InstanceMethods => "Instance methods"
      case InstanceProperties => "Instance properties"
      case StaticMethods => "Static methods"
      case StaticProperties => "Static properties"
    }
  }

  /** The order in which categories appear in a document. */
  const CategoryOrder: seq<Category> :=
    [Constructors, Interfaces, Enumerations, InstanceMethods, InstanceProperties, StaticMethods, StaticProperties]

  /** The category a symbol belongs to, decided by its type and, for functions and properties, its static flag. */
  function CategoryOf(symbol: Symbol): Category {
    match symbol.kind
    case Constructor => Constructors
    case Interface => Interfaces
    case Enum => Enumerations
    case Function => if symbol.isStatic then StaticMethods else InstanceMethods
    case Property => if symbol.isStatic then StaticProperties else InstanceProperties
  }

  /**
   * The members of a category as the renderer selects them from the sorted
   * symbols: by type, and for functions and properties by static flag.
   */
  function Selected(sorted: seq<Symbol>, category: Category): seq<Symbol> {
    match category
    case Constructors => SymbolsOfType(sorted, Constructor)
    case Interfaces => SymbolsOfType(sorted, Interface)
    case Enumerations => SymbolsOfType(sorted, Enum)
    case InstanceMethods => Filter(IsNotStatic, SymbolsOfType(sorted, Function))
    case InstanceProperties => Filter(IsNotStatic, SymbolsOfType(sorted, Property))
    case StaticMethods => Filter(IsStatic, SymbolsOfType(sorted, Function))
    case StaticProperties => Filter(IsStatic, SymbolsOfType(sorted, Property))
  }

  /** The symbols whose category is `category`, in their order. */
  function CategoryMembers(sorted: seq<Symbol>, category: Category): (r: seq<Symbol>)
    ensures forall s :: s in r ==> s in sorted && CategoryOf(s) == category
    ensures forall s :: s in sorted && CategoryOf(s) == category ==> s in r
  {
    Filter((s: Symbol) => CategoryOf(s) == category, sorted)
  }

  lemma FilterCons<T>(p: T -> bool, x: T, rest: seq<T>)
    ensures Filter(p, [x] + rest) == (if p(x) then [x] else []) + Filter(p, rest)
  {
    assert ([x] + rest)[1..] == rest;
  }

  lemma SymbolsOfTypeCons(x: Symbol, rest: seq<Symbol>, symbolType: SymbolType)
    ensures SymbolsOfType([x] + rest, symbolType)
      == (if x.kind == symbolType then [x] else []) + SymbolsOfType(rest, symbolType)
  {
    FilterCons((s: Symbol) => s.kind == symbolType, x, rest);
  }

  lemma StaticFilterCons(p: Symbol -> bool, x: Symbol, rest: seq<Symbol>, symbolType: SymbolType)
    ensures Filter(p, SymbolsOfType([x] + rest, symbolType))
      == (if x.kind == symbolType && p(x) then [x] else []) + Filter(p, SymbolsOfType(rest, symbolType))
  {
    SymbolsOfTypeCons(x, rest, symbolType);
    if x.kind == symbolType {
      FilterCons(p, x, SymbolsOfType(rest, symbolType));
    } else {
      assert [] + SymbolsOfType(rest, symbolType) == SymbolsOfType(rest, symbolType);
    }
  }

  /** A symbol in front of the list joins the front of exactly its own category's selection. */
  lemma SelectedCons(x: Symbol, rest: seq<Symbol>, category: Category)
    ensures Selected([x] + rest, category)
      == (if CategoryOf(x) == category then [x] else []) + Selected(rest, category)
  {
    match category
    case Constructors =>
      SymbolsOfTypeCons(x, rest, Constructor);
      assert CategoryOf(x) == category <==> x.kind == Constructor;
    case Interfaces =>
      SymbolsOfTypeCons(x, rest, Interface);
      assert CategoryOf(x) == category <==> x.kind == Interface;
    case Enumerations =>
      SymbolsOfTypeCons(x, rest, Enum);
      assert CategoryOf(x) == category <==> x.kind == Enum;
    case InstanceMethods =>
      StaticFilterCons(IsNotStatic, x, rest, Function);
      assert CategoryOf(x) == category <==> x.kind == Function && IsNotStatic(x);
    case InstanceProperties =>
      StaticFilterCons(IsNotStatic, x, rest, Property);
      assert CategoryOf(x) == category <==> x.kind == Property && IsNotStatic(x);
    case StaticMethods =>
      StaticFilterCons(IsStatic, x, rest, Function);
      assert CategoryOf(x) == category <==> x.kind == Function && IsStatic(x);
    case StaticProperties =>
      StaticFilterCons(IsStatic, x, rest, Property);
      assert CategoryOf(x) == category <==> x.kind == Property && IsStatic(x);
  }

  lemma CategoryMembersCons(x: Symbol, rest: seq<Symbol>, category: Category)
    ensures CategoryMembers([x] + rest, category)
      == (if CategoryOf(x) == category then [x] else []) + CategoryMembers(rest, category)
  {
    FilterCons((s: Symbol) => CategoryOf(s) == category, x, rest);
  }

  /**
   * The renderer's selection agrees with the classification: each category
   * selects exactly the symbols of that category, in their order, so each
   * symbol lands in exactly one category.
   */
  lemma {:induction false} SelectedIsClassified(sorted: seq<Symbol>, category: Category)
    ensures Selected(sorted, category) == CategoryMembers(sorted, category)
  {
    if sorted != [] {
      assert sorted == [sorted[0]] + sorted[1..];
      SelectedCons(sorted[0], sorted[1..], category);
      CategoryMembersCons(sorted[0], sorted[1..], category);
      SelectedIsClassified(sorted[1..], category);
    }
  }

  // ---------------------------------------------------------------------------
  // Sorting by identifier

  /** Identifiers appear in non-decreasing lexicographic order. */
  predicate SortedByIdentifier(symbols: seq<Symbol>) {
    forall i, j :: 0 <= i < j < |symbols| ==> LexLeq(symbols[i].identifier, symbols[j].identifier)
  }

  /** `sorted` lists the set's symbols once each, ordered by identifier. */
  predicate IsSortedEnumeration(sorted: seq<Symbol>, symbols: set<Symbol>) {
    IsEnumeration(sorted, symbols) && SortedByIdentifier(sorted)
  }

  /** Filtering keeps the order. */
  lemma {:induction false} FilterKeepsSorted(p: Symbol -> bool, symbols: seq<Symbol>)
    requires SortedByIdentifier(symbols)
    ensures SortedByIdentifier(Filter(p, symbols))
  {
    if symbols != [] {
      FilterKeepsSorted(p, symbols[1..]);
      var tail := Filter(p, symbols[1..]);
      forall j | 0 <= j < |tail| ensures LexLeq(symbols[0].identifier, tail[j].identifier) {
        assert tail[j] in symbols[1..];
        var k :| 0 <= k < |symbols[1..]| && symbols[1..][k] == tail[j];
        assert symbols[k + 1] == tail[j];
      }
    }
  }

  /** Within every category the identifiers are in non-decreasing order. */
  lemma CategoryMembersSorted(sorted: seq<Symbol>, category: Category)
    requires SortedByIdentifier(sorted)
    ensures SortedByIdentifier(CategoryMembers(sorted, category))
  {
    FilterKeepsSorted((s: Symbol) => CategoryOf(s) == category, sorted);
  }

  /** `least` has an identifier no greater than any other in the set. */
  predicate IsLeast(least: Symbol, symbols: set<Symbol>) {
    forall s :: s in symbols ==> LexLeq(least.identifier, s.identifier)
  }

  /** Every non-empty set of symbols has one with a least identifier. */
  lemma {:induction false} LeastExists(symbols: set<Symbol>)
    requires symbols != {}
    ensures exists least :: least in symbols && IsLeast(least, symbols)
    decreases |symbols|
  {
    var x :| x in symbols;
    LexLeqReflexive(x.identifier);
    if symbols != {x} {
      var others := symbols - {x};
      LeastExists(others);
      var m :| m in others && IsLeast(m, others);
      if LexLeq(m.identifier, x.identifier) {
        assert IsLeast(m, symbols);
      } else {
        LexLeqTotal(m.identifier, x.identifier);
        forall s | s in symbols ensures LexLeq(x.identifier, s.identifier) {
          if s != x {
            LexLeqTransitive(x.identifier, m.identifier, s.identifier);
          }
        }
        assert IsLeast(x, symbols);
      }
    } else {
      assert IsLeast(x, symbols);
    }
  }

  /** Every symbol already placed has an identifier no greater than any symbol still to place. */
  predicate PlacedBefore(sorted: seq<Symbol>, rest: set<Symbol>) {
    forall i, s :: 0 <= i < |sorted| && s in rest ==> LexLeq(sorted[i].identifier, s.identifier)
  }

  /** Placing a least remaining symbol keeps the selection sort's invariant. */
  lemma PlaceLeast(sorted: seq<Symbol>, rest: set<Symbol>, least: Symbol)
    requires SortedByIdentifier(sorted) && PlacedBefore(sorted, rest)
    requires least in rest && IsLeast(least, rest)
    ensures SortedByIdentifier(sorted + [least]) && PlacedBefore(sorted + [least], rest - {least})
  {
  }

  /** Python's `sorted(symbols, key=identifier)` over a set of symbols. */
  method SortByIdentifier(symbols: set<Symbol>) returns (sorted: seq<Symbol>)
    ensures IsSortedEnumeration(sorted, symbols)
  {
    sorted := [];
    var rest := symbols;
    while rest != {}
      invariant rest <= symbols
      invariant IsEnumeration(sorted, symbols - rest)
      invariant SortedByIdentifier(sorted) && PlacedBefore(sorted, rest)
      decreases |rest|
    {
      LeastExists(rest);
      var least :| least in rest && IsLeast(least, rest);
      EnumerationExtend(sorted, symbols - rest, least);
      PlaceLeast(sorted, rest, least);
      assert symbols - (rest - {least}) == (symbols - rest) + {least};
      sorted := sorted + [least];
      rest := rest - {least};
    }
    assert symbols - rest == symbols;
  }

  /** Distinct symbols of the set have distinct identifiers. */
  lemma {:induction false} SortedEnumerationUnique(a: seq<Symbol>, b: seq<Symbol>, symbols: set<Symbol>)
    requires IsSortedEnumeration(a, symbols) && IsSortedEnumeration(b, symbols)
    requires DistinctIdentifiers(symbols)
    ensures a == b
    decreases |a|
  {
    EnumerationSize(a, symbols);
    EnumerationSize(b, symbols);
    if a != [] {
      forall s | s in symbols ensures LexLeq(a[0].identifier, s.identifier) && LexLeq(b[0].identifier, s.identifier) {
        var i :| 0 <= i < |a| && a[i] == s;
        var j :| 0 <= j < |b| && b[j] == s;
        LexLeqReflexive(s.identifier);
      }
      assert b[0] in symbols && a[0] in symbols;
      LexLeqAntisymmetric(a[0].identifier, b[0].identifier);
      var rest := symbols - {a[0]};
      assert Elements(a[1..]) == rest by {
        assert a == [a[0]] + a[1..];
        forall k | 0 <= k < |a[1..]| ensures a[1..][k] != a[0] { assert a[1..][k] == a[k + 1]; }
      }
      assert Elements(b[1..]) == rest by {
        assert b == [b[0]] + b[1..];
        forall k | 0 <= k < |b[1..]| ensures b[1..][k] != b[0] { assert b[1..][k] == b[k + 1]; }
      }
      SortedEnumerationUnique(a[1..], b[1..], rest);
      assert a == [a[0]] + a[1..] && b == [b[0]] + b[1..];
    }
  }

  // ---------------------------------------------------------------------------
  // Symbol descriptions

  /** Every symbol has a comment. */
  predicate Commented(symbols: seq<Symbol>) {
    forall s :: s in symbols ==> s.comment != null
  }

  /** The description sections of a symbol's comment (none when it has no comment). */
  function SectionsOf(symbol: Symbol): seq<string> {
    if symbol.comment == null then [] else symbol.comment.descriptionSections
  }

  /** The identifiers of the symbols, in order. */
  function Identifiers(symbols: seq<Symbol>): seq<string> {
    if symbols == [] then []
    else Identifiers(symbols[..|symbols| - 1]) + [symbols[|symbols| - 1].identifier]
  }

  /** One `p` element per section. */
  function Paragraphs(sections: seq<string>): seq<Element> {
    if sections == [] then []
    else Paragraphs(sections[..|sections| - 1]) + [MakeElement("p", Some(sections[|sections| - 1]))]
  }

  /** The `h3` heading of one symbol followed by the paragraphs of its description. */
  function Block(symbol: Symbol): seq<Element> {
    [MakeElement("h3", Some(symbol.identifier))] + Paragraphs(SectionsOf(symbol))
  }

  /** The blocks of the symbols, one after another. */
  function Descriptions(symbols: seq<Symbol>): seq<Element> {
    if symbols == [] then []
    else Descriptions(symbols[..|symbols| - 1]) + Block(symbols[|symbols| - 1])
  }

  lemma DescriptionsStep(symbols: seq<Symbol>, i: nat)
    requires i < |symbols|
    ensures Descriptions(symbols[..i + 1]) == Descriptions(symbols[..i]) + Block(symbols[i])
  {
    assert symbols[..i + 1][..i] == symbols[..i];
  }

  lemma ParagraphsStep(sections: seq<string>, k: nat)
    requires k < |sections|
    ensures Paragraphs(sections[..k + 1]) == Paragraphs(sections[..k]) + [MakeElement("p", Some(sections[k]))]
  {
    assert sections[..k + 1][..k] == sections[..k];
  }

  /** Appends one `p` element per section to the node list. */
  method AddParagraphs(nodeList: seq<Element>, sections: seq<string>) returns (nodes: seq<Element>)
    ensures nodes == nodeList + Paragraphs(sections)
  {
    nodes := nodeList;
    for k := 0 to |sections|
      invariant nodes == nodeList + Paragraphs(sections[..k])
    {
      ParagraphsStep(sections, k);
      nodes := nodes + [MakeElement("p", Some(sections[k]))];
    }
    assert sections[..|sections|] == sections;
  }

  /** Appends the block of each symbol to the node list. */
  method AddSymbolDescriptions(nodeList: seq<Element>, symbols: seq<Symbol>)
    returns (nodes: seq<Element>)
    requires Commented(symbols)
    ensures nodes == nodeList + Descriptions(symbols)
  {
    nodes := nodeList;
    for i := 0 to |symbols|
      invariant nodes == nodeList + Descriptions(symbols[..i])
    {
      var symbol := symbols[i];
      DescriptionsStep(symbols, i);
      var heading := MakeElement("h3", Some(symbol.identifier));
      nodes := nodes + [heading];
      nodes := AddParagraphs(nodes, symbol.comment.descriptionSections);
    }
    assert symbols[..|symbols|] == symbols;
  }

  /** One `p` element per section, carrying that section's text, in order. */
  lemma {:induction false} ParagraphsShape(sections: seq<string>)
    ensures |Paragraphs(sections)| == |sections|
    ensures forall k :: 0 <= k < |sections| ==>
      Paragraphs(sections)[k].tag == "p" && TextOf(Paragraphs(sections)[k]) == sections[k]
  {
    if sections != [] {
      ParagraphsShape(sections[..|sections| - 1]);
    }
  }

  /**
   * A rendered symbol is one `h3` with its identifier, followed immediately by
   * one `p` per section of its comment's description, in order.
   */
  lemma BlockShape(symbol: Symbol)
    requires symbol.comment != null
    ensures var block := Block(symbol);
      var sections := symbol.comment.descriptionSections;
      && |block| == 1 + |sections|
      && block[0].tag == "h3" && TextOf(block[0]) == symbol.identifier
      && forall k :: 0 <= k < |sections| ==> block[k + 1].tag == "p" && TextOf(block[k + 1]) == sections[k]
  {
    var sections := symbol.comment.descriptionSections;
    var paragraphs := Paragraphs(sections);
    ParagraphsShape(sections);
    assert Block(symbol) == [MakeElement("h3", Some(symbol.identifier))] + paragraphs;
    forall k | 0 <= k < |sections| ensures Block(symbol)[k + 1] == paragraphs[k] {
    }
  }

  lemma {:induction false} ParagraphsTexts(sections: seq<string>, tag: string)
    requires tag != "p"
    ensures TextsTagged(Paragraphs(sections), tag) == []
  {
    if sections != [] {
      var init := sections[..|sections| - 1];
      ParagraphsTexts(init, tag);
      TextsTaggedAppend(Paragraphs(init), [MakeElement("p", Some(sections[|sections| - 1]))], tag);
    }
  }

  /** The blocks hold no `h2`, and their `h3` texts are the identifiers in order. */
  lemma {:induction false} DescriptionsTexts(symbols: seq<Symbol>)
    ensures TextsTagged(Descriptions(symbols), "h2") == []
    ensures TextsTagged(Descriptions(symbols), "h3") == Identifiers(symbols)
  {
    if symbols != [] {
      var init := symbols[..|symbols| - 1];
      var last := symbols[|symbols| - 1];
      DescriptionsTexts(init);
      var heading := [MakeElement("h3", Some(last.identifier))];
      var paragraphs := Paragraphs(SectionsOf(last));
      assert "h3" != "h2" by { assert "h3"[1] != "h2"[1]; }
      assert "h3" != "p" && "h2" != "p";
      ParagraphsTexts(SectionsOf(last), "h2");
      ParagraphsTexts(SectionsOf(last), "h3");
      TextsTaggedAppend(heading, paragraphs, "h2");
      TextsTaggedAppend(heading, paragraphs, "h3");
      TextsTaggedAppend(Descriptions(init), Block(last), "h2");
      TextsTaggedAppend(Descriptions(init), Block(last), "h3");
    }
  }

  // ---------------------------------------------------------------------------
  // Content of a namespace's document

  /** The section of one category: nothing when it is empty, else its heading and its members' blocks. */
  function Section(category: Category, members: seq<Symbol>): seq<Element> {
    if members == [] then []
    else [MakeElement("h2", Some(category.Heading()))] + Descriptions(members)
  }

  /** The position of a category in the fixed order. */
  function Rank(category: Category): (r: nat)
    ensures r < |CategoryOrder| && CategoryOrder[r] == category
  {
    match category
    case Constructors => 0
    case Interfaces => 1
    case Enumerations => 2
    case InstanceMethods => 3
    case InstanceProperties => 4
    case StaticMethods => 5
    case StaticProperties => 6
  }

  /** Each category occurs once in the fixed order: at its rank. */
  lemma RankOfPosition(i: nat)
    requires i < |CategoryOrder|
    ensures Rank(CategoryOrder[i]) == i
  {
  }

  /** The sections of the first `n` categories of the fixed order, one after another. */
  function Sections(sorted: seq<Symbol>, n: nat): seq<Element>
    requires n <= |CategoryOrder|
  {
    if n == 0 then []
    else
      var category := CategoryOrder[n - 1];
      Sections(sorted, n - 1) + Section(category, CategoryMembers(sorted, category))
  }

  /** The content of the document of symbols already sorted by identifier. */
  function ContentOf(sorted: seq<Symbol>): seq<Element> {
    Sections(sorted, |CategoryOrder|)
  }

  /** The headings of the non-empty categories among the first `n`, in order. */
  function NonEmptyHeadings(sorted: seq<Symbol>, n: nat): seq<string>
    requires n <= |CategoryOrder|
  {
    if n == 0 then []
    else
      var category := CategoryOrder[n - 1];
      NonEmptyHeadings(sorted, n - 1) + if CategoryMembers(sorted, category) != [] then [category.Heading()] else []
  }

  /** The members of the first `n` categories, category after category. */
  function Rendered(sorted: seq<Symbol>, n: nat): seq<Symbol>
    requires n <= |CategoryOrder|
  {
    if n == 0 then []
    else Rendered(sorted, n - 1) + CategoryMembers(sorted, CategoryOrder[n - 1])
  }

  /** A section's `h2` text is its heading when it has members; its `h3` texts are its members' identifiers. */
  lemma SectionTexts(category: Category, members: seq<Symbol>)
    ensures TextsTagged(Section(category, members), "h2")
      == if members != [] then [category.Heading()] else []
    ensures TextsTagged(Section(category, members), "h3") == Identifiers(members)
  {
    if members != [] {
      var heading := [MakeElement("h2", Some(category.Heading()))];
      DescriptionsTexts(members);
      TextsTaggedAppend(heading, Descriptions(members), "h2");
      TextsTaggedAppend(heading, Descriptions(members), "h3");
      assert "h2" != "h3" by { assert "h2"[1] != "h3"[1]; }
      assert category.Heading() != "";
    }
  }

  /** Appending a section appends its heading, if it has members, to the `h2` texts. */
  lemma SectionAppendHeadings(previous: seq<Element>, headings: seq<string>, category: Category, members: seq<Symbol>)
    requires TextsTagged(previous, "h2") == headings
    ensures TextsTagged(previous + Section(category, members), "h2")
      == headings + if members != [] then [category.Heading()] else []
  {
    SectionTexts(category, members);
    TextsTaggedAppend(previous, Section(category, members), "h2");
  }

  /** Appending a section appends its members' identifiers to the `h3` texts. */
  lemma SectionAppendSymbolHeadings(previous: seq<Element>, rendered: seq<Symbol>, category: Category, members: seq<Symbol>)
    requires TextsTagged(previous, "h3") == Identifiers(rendered)
    ensures TextsTagged(previous + Section(category, members), "h3") == Identifiers(rendered + members)
  {
    SectionTexts(category, members);
    TextsTaggedAppend(previous, Section(category, members), "h3");
    IdentifiersAppend(rendered, members);
  }

  lemma {:induction false} SectionsHeadings(sorted: seq<Symbol>, n: nat)
    requires n <= |CategoryOrder|
    ensures TextsTagged(Sections(sorted, n), "h2") == NonEmptyHeadings(sorted, n)
  {
    if n > 0 {
      var category := CategoryOrder[n - 1];
      SectionsHeadings(sorted, n - 1);
      SectionAppendHeadings(Sections(sorted, n - 1), NonEmptyHeadings(sorted, n - 1),
                            category, CategoryMembers(sorted, category));
    }
  }

  lemma {:induction false} SectionsSymbolHeadings(sorted: seq<Symbol>, n: nat)
    requires n <= |CategoryOrder|
    ensures TextsTagged(Sections(sorted, n), "h3") == Identifiers(Rendered(sorted, n))
  {
    if n > 0 {
      var category := CategoryOrder[n - 1];
      SectionsSymbolHeadings(sorted, n - 1);
      SectionAppendSymbolHeadings(Sections(sorted, n - 1), Rendered(sorted, n - 1),
                                  category, CategoryMembers(sorted, category));
    }
  }

  lemma {:induction false} IdentifiersAppend(a: seq<Symbol>, b: seq<Symbol>)
    ensures Identifiers(a + b) == Identifiers(a) + Identifiers(b)
    decreases |b|
  {
    if b == [] {
      assert a + b == a;
    } else {
      var init := b[..|b| - 1];
      assert (a + b)[..|a + b| - 1] == a + init;
      IdentifiersAppend(a, init);
    }
  }

  /**
   * Category headings: the `h2` texts of the content are the headings of the
   * non-empty categories, in the fixed category order.
   */
  lemma CategoryHeadingsInOrder(sorted: seq<Symbol>)
    ensures TextsTagged(ContentOf(sorted), "h2") == NonEmptyHeadings(sorted, |CategoryOrder|)
  {
    SectionsHeadings(sorted, |CategoryOrder|);
  }

  /**
   * Symbol headings: the `h3` texts of the content are the identifiers of the
   * category members, category after category in the fixed order.
   */
  lemma SymbolHeadingsInOrder(sorted: seq<Symbol>)
    ensures TextsTagged(ContentOf(sorted), "h3") == Identifiers(Rendered(sorted, |CategoryOrder|))
  {
    SectionsSymbolHeadings(sorted, |CategoryOrder|);
  }

  /** Appending a list that gained `x` in front to one that gained `x` adds `x` to the whole, once. */
  lemma MultisetOfAppendGained<T>(a: seq<T>, a': seq<T>, b: seq<T>, b': seq<T>, x: T, before: bool, here: bool)
    requires multiset(a') == multiset(a) + if before then multiset{x} else multiset{}
    requires b' == (if here then [x] else []) + b
    requires !(before && here)
    ensures multiset(a' + b') == multiset(a + b) + if before || here then multiset{x} else multiset{}
  {
    assert multiset(b') == (if here then multiset{x} else multiset{}) + multiset(b);
  }

  /** A symbol in front of the list is rendered once more exactly when its category is among the first `n`. */
  lemma {:induction false} RenderedCons(x: Symbol, rest: seq<Symbol>, n: nat)
    requires n <= |CategoryOrder|
    ensures multiset(Rendered([x] + rest, n))
      == multiset(Rendered(rest, n)) + if Rank(CategoryOf(x)) < n then multiset{x} else multiset{}
  {
    if n > 0 {
      var category := CategoryOrder[n - 1];
      var rank := Rank(CategoryOf(x));
      CategoryMembersCons(x, rest, category);
      RenderedCons(x, rest, n - 1);
      RankOfPosition(n - 1);
      assert CategoryOf(x) == category <==> rank == n - 1;
      MultisetOfAppendGained(Rendered(rest, n - 1), Rendered([x] + rest, n - 1),
                             CategoryMembers(rest, category), CategoryMembers([x] + rest, category),
                             x, rank < n - 1, CategoryOf(x) == category);
    }
  }

  lemma {:induction false} RenderedOfNothing(n: nat)
    requires n <= |CategoryOrder|
    ensures Rendered([], n) == []
  {
    if n > 0 {
      RenderedOfNothing(n - 1);
    }
  }

  /** Every sorted symbol is rendered exactly once: the rendered members are a permutation of the input. */
  lemma {:induction false} RenderedIsPermutation(sorted: seq<Symbol>)
    ensures multiset(Rendered(sorted, |CategoryOrder|)) == multiset(sorted)
  {
    if sorted == [] {
      RenderedOfNothing(|CategoryOrder|);
    } else {
      var x := sorted[0];
      assert sorted == [x] + sorted[1..];
      RenderedIsPermutation(sorted[1..]);
      RenderedCons(x, sorted[1..], |CategoryOrder|);
    }
  }

  /** The sections of the first three categories, one after another. */
  lemma FirstSectionsUnfolded(sorted: seq<Symbol>)
    ensures Sections(sorted, 3)
      == [] + Section(Constructors, CategoryMembers(sorted, Constructors))
       + Section(Interfaces, CategoryMembers(sorted, Interfaces))
       + Section(Enumerations, CategoryMembers(sorted, Enumerations))
  {
    assert CategoryOrder[0] == Constructors && CategoryOrder[1] == Interfaces && CategoryOrder[2] == Enumerations;
    assert Sections(sorted, 1) == [] + Section(Constructors, CategoryMembers(sorted, Constructors));
    assert Sections(sorted, 2) == Sections(sorted, 1) + Section(Interfaces, CategoryMembers(sorted, Interfaces));
  }

  /** The content is the seven sections, one after another in the fixed category order. */
  lemma ContentOfUnfolded(sorted: seq<Symbol>)
    ensures ContentOf(sorted)
      == [] + Section(Constructors, CategoryMembers(sorted, Constructors))
       + Section(Interfaces, CategoryMembers(sorted, Interfaces))
       + Section(Enumerations, CategoryMembers(sorted, Enumerations))
       + Section(InstanceMethods, CategoryMembers(sorted, InstanceMethods))
       + Section(InstanceProperties, CategoryMembers(sorted, InstanceProperties))
       + Section(StaticMethods, CategoryMembers(sorted, StaticMethods))
       + Section(StaticProperties, CategoryMembers(sorted, StaticProperties))
  {
    FirstSectionsUnfolded(sorted);
    assert |CategoryOrder| == 7;
    assert CategoryOrder[3] == InstanceMethods && CategoryOrder[4] == InstanceProperties;
    assert CategoryOrder[5] == StaticMethods && CategoryOrder[6] == StaticProperties;
    assert Sections(sorted, 4) == Sections(sorted, 3) + Section(InstanceMethods, CategoryMembers(sorted, InstanceMethods));
    assert Sections(sorted, 5) == Sections(sorted, 4) + Section(InstanceProperties, CategoryMembers(sorted, InstanceProperties));
    assert Sections(sorted, 6) == Sections(sorted, 5) + Section(StaticMethods, CategoryMembers(sorted, StaticMethods));
  }

  /**
   * One category block of the content: when the category has members, its
   * heading and then the members' descriptions are appended.
   */
  method AddSection(nodeList: seq<Element>, category: Category, members: seq<Symbol>)
    returns (nodes: seq<Element>)
    requires Commented(members)
    ensures nodes == nodeList + Section(category, members)
  {
    nodes := nodeList;
    if members != [] {
      nodes := nodes + [MakeElement("h2", Some(category.Heading()))];
      nodes := AddSymbolDescriptions(nodes, members);
    }
  }

  /** The members of each category, as the content's blocks select them. */
  lemma CategoryMembersSelected(sorted: seq<Symbol>)
    ensures CategoryMembers(sorted, Constructors) == SymbolsOfType(sorted, Constructor)
    ensures CategoryMembers(sorted, Interfaces) == SymbolsOfType(sorted, Interface)
    ensures CategoryMembers(sorted, Enumerations) == SymbolsOfType(sorted, Enum)
    ensures CategoryMembers(sorted, InstanceMethods) == Filter(IsNotStatic, SymbolsOfType(sorted, Function))
    ensures CategoryMembers(sorted, InstanceProperties) == Filter(IsNotStatic, SymbolsOfType(sorted, Property))
    ensures CategoryMembers(sorted, StaticMethods) == Filter(IsStatic, SymbolsOfType(sorted, Function))
    ensures CategoryMembers(sorted, StaticProperties) == Filter(IsStatic, SymbolsOfType(sorted, Property))
  {
    SelectedIsClassified(sorted, Constructors);
    SelectedIsClassified(sorted, Interfaces);
    SelectedIsClassified(sorted, Enumerations);
    SelectedIsClassified(sorted, InstanceMethods);
    SelectedIsClassified(sorted, InstanceProperties);
    SelectedIsClassified(sorted, StaticMethods);
    SelectedIsClassified(sorted, StaticProperties);
  }

  /** The sorted symbols of a set whose symbols all have comments have comments. */
  lemma SortedCommented(sorted: seq<Symbol>, symbols: set<Symbol>)
    requires IsSortedEnumeration(sorted, symbols) && HasComments(symbols)
    ensures Commented(sorted)
  {
  }

  /**
   * The content of a namespace's document: its symbols sorted by identifier,
   * then for each category in the fixed order a heading and the members'
   * descriptions, skipping empty categories.
   */
  method GenerateContent(namespace: string, symbols: set<Symbol>) returns (nodeList: seq<Element>, ghost sortedSymbols: seq<Symbol>)
    requires HasComments(symbols)
    ensures IsSortedEnumeration(sortedSymbols, symbols)
    ensures nodeList == ContentOf(sortedSymbols)
  {
    nodeList := [];
    var sorted := SortByIdentifier(symbols);
    sortedSymbols := sorted;
    SortedCommented(sorted, symbols);

    var constructorSymbols := SymbolsOfType(sorted, Constructor);
    nodeList := AddSection(nodeList, Constructors, constructorSymbols);

    var interfaceSymbols := SymbolsOfType(sorted, Interface);
    nodeList := AddSection(nodeList, Interfaces, interfaceSymbols);

    var enumSymbols := SymbolsOfType(sorted, Enum);
    nodeList := AddSection(nodeList, Enumerations, enumSymbols);

    var instanceMethods := Filter(IsNotStatic, SymbolsOfType(sorted, Function));
    nodeList := AddSection(nodeList, InstanceMethods, instanceMethods);

    var instanceProperties := Filter(IsNotStatic, SymbolsOfType(sorted, Property));
    nodeList := AddSection(nodeList, InstanceProperties, instanceProperties);

    var staticFunctions := Filter(IsStatic, SymbolsOfType(sorted, Function));
    nodeList := AddSection(nodeList, StaticMethods, staticFunctions);

    var staticProperties := Filter(IsStatic, SymbolsOfType(sorted, Property));
    nodeList := AddSection(nodeList, StaticProperties, staticProperties);
    assert nodeList == [] + Section(Constructors, constructorSymbols)
      + Section(Interfaces, interfaceSymbols) + Section(Enumerations, enumSymbols)
      + Section(InstanceMethods, instanceMethods) + Section(InstanceProperties, instanceProperties)
      + Section(StaticMethods, staticFunctions) + Section(StaticProperties, staticProperties);
    CategoryMembersSelected(sorted);
    ContentOfUnfolded(sorted);
  }

  // ---------------------------------------------------------------------------
  // Documents

  /** The document of a namespace: an `html` element whose only child is a `body` holding the content. */
  function DocumentOf(sorted: seq<Symbol>): Element {
    Element("html", None, [Element("body", None, ContentOf(sorted))])
  }

  /**
   * A namespace's document: the content is generated and each of its nodes is
   * appended in turn to the `body` under the `html` root.
   */
  method GenerateDocument(namespace: string, symbols: set<Symbol>)
    returns (doc: Element, ghost sorted: seq<Symbol>)
    requires HasComments(symbols)
    ensures IsSortedEnumeration(sorted, symbols)
    ensures doc == DocumentOf(sorted)
  {
    var content;
    content, sorted := GenerateContent(namespace, symbols);
    var body: seq<Element> := [];
    for i := 0 to |content|
      invariant body == content[..i]
    {
      body := body + [content[i]];
    }
    assert content[..|content|] == content;
    doc := Element("html", None, [Element("body", None, body)]);
  }

  /**
   * When no two symbols share an identifier, sorting leaves no choice: the
   * document does not depend on the order in which the set was visited.
   */
  lemma DocumentDeterministic(a: seq<Symbol>, b: seq<Symbol>, symbols: set<Symbol>)
    requires IsSortedEnumeration(a, symbols) && IsSortedEnumeration(b, symbols)
    requires DistinctIdentifiers(symbols)
    ensures DocumentOf(a) == DocumentOf(b)
  {
    SortedEnumerationUnique(a, b, symbols);
  }

  /** The file a namespace's document is written to. */
  function HtmlPath(namespace: string): (path: string)
    ensures |path| == |namespace| + 5
    ensures path[..|namespace|] == namespace && path[|namespace|..] == ".html"
  {
    namespace + ".html"
  }

  /** Distinct namespaces are written to distinct files. */
  lemma HtmlPathInjective(a: string, b: string)
    requires HtmlPath(a) == HtmlPath(b)
    ensures a == b
  {
    assert |a| == |b|;
    assert a == HtmlPath(a)[..|a|];
  }

  /** `entry` is the file of `namespace`: its path, and the document of `order`, a sorted enumeration of its symbols. */
  predicate IsDocumentEntry(namespaceMap: map<string, set<Symbol>>, entry: (string, Element), namespace: string, order: seq<Symbol>) {
    && namespace in namespaceMap
    && entry.0 == HtmlPath(namespace)
    && IsSortedEnumeration(order, namespaceMap[namespace])
    && entry.1 == DocumentOf(order)
  }

  /** `docs[i]` is the file of `namespaces[i]`, built from `orders[i]`, for every `i`. */
  predicate AreDocumentEntries(namespaceMap: map<string, set<Symbol>>, docs: seq<(string, Element)>,
                               namespaces: seq<string>, orders: seq<seq<Symbol>>) {
    && |docs| == |namespaces| == |orders|
    && forall i :: 0 <= i < |docs| ==> IsDocumentEntry(namespaceMap, docs[i], namespaces[i], orders[i])
  }

  lemma AreDocumentEntriesExtend(namespaceMap: map<string, set<Symbol>>, docs: seq<(string, Element)>,
                                 namespaces: seq<string>, orders: seq<seq<Symbol>>,
                                 entry: (string, Element), namespace: string, order: seq<Symbol>)
    requires AreDocumentEntries(namespaceMap, docs, namespaces, orders)
    requires IsDocumentEntry(namespaceMap, entry, namespace, order)
    ensures AreDocumentEntries(namespaceMap, docs + [entry], namespaces + [namespace], orders + [order])
  {
  }

  /** Files of distinct namespaces have distinct paths. */
  lemma {:induction false} DistinctPaths(docs: seq<(string, Element)>, namespaces: seq<string>)
    requires |docs| == |namespaces| && Distinct(namespaces)
    requires forall i :: 0 <= i < |docs| ==> docs[i].0 == HtmlPath(namespaces[i])
    ensures forall i, j :: 0 <= i < j < |docs| ==> docs[i].0 != docs[j].0
  {
  }

  /** The path and the document of one namespace of the map. */
  method DocumentEntry(namespaceMap: map<string, set<Symbol>>, namespace: string)
    returns (entry: (string, Element), ghost sorted: seq<Symbol>)
    requires namespace in namespaceMap && HasComments(namespaceMap[namespace])
    ensures IsDocumentEntry(namespaceMap, entry, namespace, sorted)
  {
    var filepath := HtmlPath(namespace);
    var doc;
    doc, sorted := GenerateDocument(namespace, namespaceMap[namespace]);
    entry := (filepath, doc);
  }

  /**
   * One (path, document) pair per namespace of the map, in the order an
   * iteration over the map visits its keys: `namespaces` is that order and
   * `orders[i]` the sorted symbols behind the `i`-th document.
   */
  method GenerateDocs(namespaceMap: map<string, set<Symbol>>)
    returns (docs: seq<(string, Element)>, ghost namespaces: seq<string>, ghost orders: seq<seq<Symbol>>)
    requires forall ns :: ns in namespaceMap ==> HasComments(namespaceMap[ns])
    ensures IsEnumeration(namespaces, namespaceMap.Keys)
    ensures AreDocumentEntries(namespaceMap, docs, namespaces, orders)
    ensures forall i, j :: 0 <= i < j < |docs| ==> docs[i].0 != docs[j].0
  {
    docs, namespaces, orders := [], [], [];
    var rest := namespaceMap.Keys;
    while rest != {}
      invariant rest <= namespaceMap.Keys
      invariant IsEnumeration(namespaces, namespaceMap.Keys - rest)
      invariant AreDocumentEntries(namespaceMap, docs, namespaces, orders)
      decreases |rest|
    {
      var namespace :| namespace in rest;
      var entry, sorted := DocumentEntry(namespaceMap, namespace);
      EnumerationExtend(namespaces, namespaceMap.Keys - rest, namespace);
      AreDocumentEntriesExtend(namespaceMap, docs, namespaces, orders, entry, namespace, sorted);
      assert namespaceMap.Keys - (rest - {namespace}) == (namespaceMap.Keys - rest) + {namespace};
      docs := docs + [entry];
      namespaces := namespaces + [namespace];
      orders := orders + [sorted];
      rest := rest - {namespace};
    }
    assert namespaceMap.Keys - rest == namespaceMap.Keys;
    DistinctPaths(docs, namespaces);
  }
}
