/**
 * One scanned script as a source unit: its provided and required namespaces, its
 * documented symbols, and at most one file-overview comment (source.py).
 *
 * The scanner that finds comments and declarations is not part of this model.
 * Its results arrive as a `ScanResult`: the provided and required namespaces,
 * and the (comment, optional identifier) pairs in scan order, with the
 * comment text already extracted and the identifier already stripped of
 * whitespace. The attributes that code outside this model derives for each
 * symbol (namespace, type, static flag) and for each comment (description
 * sections) arrive with the match they belong to.
 */
module SourceModel {
  import opened Results
  import opened Collections
  import opened SymbolTypes

  /** A documentation comment: its extracted text and its span in the script. */
  class Comment {
    const text: string
    const start: nat
    const end: nat
    /** The comment's description paragraphs, in order. */
    const descriptionSections: seq<string>

    constructor (text: string, start: nat, end: nat, descriptionSections: seq<string>)
      ensures this.text == text && this.start == start && this.end == end
      ensures this.descriptionSections == descriptionSections
    {
      this.text := text;
      this.start := start;
      this.end := end;
      this.descriptionSections := descriptionSections;
    }
  }

  /**
   * A documented declaration. Its identifier, span and comment never change;
   * its owning source is attached after construction.
   */
  class Symbol {
    const identifier: string
    const start: nat
    const end: nat
    /** The symbol's namespace: given, derived by code outside this model. */
    const namespace: string
    const kind: SymbolType
    const isStatic: bool
    const comment: Comment?
    var source: Source?

    constructor (identifier: string, start: nat, end: nat,
                 namespace: string, kind: SymbolType, isStatic: bool, comment: Comment?)
      ensures this.identifier == identifier && this.start == start && this.end == end
      ensures this.namespace == namespace && this.kind == kind && this.isStatic == isStatic
      ensures this.comment == comment && source == null
    {
      this.identifier := identifier;
      this.start := start;
      this.end := end;
      this.namespace := namespace;
      this.kind := kind;
      this.isStatic := isStatic;
      this.comment := comment;
      source := null;
    }
  }

  /** One scanned script. */
  class Source {
    const script: string
    const path: Option<string>
    var provided: set<string>
    var required: set<string>
    var symbols: set<Symbol>
    var filecomment: Comment?

    constructor (script: string, path: Option<string>)
      ensures this.script == script && this.path == path
      ensures provided == {} && required == {} && symbols == {} && filecomment == null
    {
      this.script := script;
      this.path := path;
      provided := {};
      required := {};
      symbols := {};
      filecomment := null;
    }
  }

  /** Every symbol has its comment attached. */
  predicate HasComments(symbols: set<Symbol>) {
    forall s :: s in symbols ==> s.comment != null
  }

  /** No two distinct symbols share an identifier. */
  predicate DistinctIdentifiers(symbols: set<Symbol>) {
    forall a, b :: a in symbols && b in symbols && a.identifier == b.identifier ==> a == b
  }

  /** A match of a documentation comment, as the scanner reports it. */
  datatype CommentMatch = CommentMatch(text: string, start: nat, end: nat, sections: seq<string>)

  /** A match of the declaration that follows a comment, as the scanner reports it. */
  datatype IdentifierMatch = IdentifierMatch(
    text: string, start: nat, end: nat,
    namespace: string, kind: SymbolType, isStatic: bool)

  /** A documentation comment and the declaration it documents, if any. */
  datatype DocPair = DocPair(comment: CommentMatch, identifier: Option<IdentifierMatch>)

  /** Everything the scanner reports about one script. */
  datatype ScanResult = ScanResult(provided: seq<string>, required: seq<string>, pairs: seq<DocPair>)

  /** The failed assertion raised when a script has a second file-overview comment. */
  datatype ScanError = FileOverviewMadeTwice

  /** The pairs that document a declaration, in scan order. */
  function Declarations(pairs: seq<DocPair>): seq<DocPair> {
    if pairs == [] then []
    else
      var last := pairs[|pairs| - 1];
      Declarations(pairs[..|pairs| - 1]) + if last.identifier.Some? then [last] else []
  }

  /** The comments of the pairs that document no declaration, in scan order. */
  function FileOverviews(pairs: seq<DocPair>): seq<CommentMatch> {
    if pairs == [] then []
    else
      var last := pairs[|pairs| - 1];
      FileOverviews(pairs[..|pairs| - 1]) + if last.identifier.None? then [last.comment] else []
  }

  /** Extending the pairs never removes a file overview. */
  lemma {:induction false} FileOverviewsGrow(pairs: seq<DocPair>, n: nat)
    requires n <= |pairs|
    ensures |FileOverviews(pairs[..n])| <= |FileOverviews(pairs)|
    decreases |pairs|
  {
    if n < |pairs| {
      var init := pairs[..|pairs| - 1];
      assert init[..n] == pairs[..n];
      FileOverviewsGrow(init, n);
    } else {
      assert pairs[..n] == pairs;
    }
  }

  /** Scanning one more pair extends the declarations or the file overviews by that pair. */
  lemma ScanStep(pairs: seq<DocPair>, i: nat)
    requires i < |pairs|
    ensures Declarations(pairs[..i + 1])
      == Declarations(pairs[..i]) + if pairs[i].identifier.Some? then [pairs[i]] else []
    ensures FileOverviews(pairs[..i + 1])
      == FileOverviews(pairs[..i]) + if pairs[i].identifier.None? then [pairs[i].comment] else []
  {
    assert pairs[..i + 1][..i] == pairs[..i];
  }

  /** The comment object carries the match's text, span and sections. */
  predicate CommentFrom(c: Comment, m: CommentMatch) {
    c.text == m.text && c.start == m.start && c.end == m.end && c.descriptionSections == m.sections
  }

  /** The symbol object carries the pair's identifier match and its comment. */
  predicate SymbolFrom(s: Symbol, pair: DocPair) {
    && pair.identifier.Some?
    && var id := pair.identifier.value;
    && s.identifier == id.text && s.start == id.start && s.end == id.end
    && s.namespace == id.namespace && s.kind == id.kind && s.isStatic == id.isStatic
    && s.comment != null && CommentFrom(s.comment, pair.comment)
  }

  /** Creates the symbol of a pair that documents a declaration and attaches it to the source. */
  method AddSymbol(source: Source, pair: DocPair) returns (symbol: Symbol)
    requires pair.identifier.Some?
    modifies source
    ensures fresh(symbol) && fresh(symbol.comment)
    ensures SymbolFrom(symbol, pair) && symbol.source == source
    ensures source.symbols == old(source.symbols) + {symbol}
    ensures source.provided == old(source.provided) && source.required == old(source.required)
    ensures source.filecomment == old(source.filecomment)
  {
    var id := pair.identifier.value;
    var comment := new Comment(pair.comment.text, pair.comment.start, pair.comment.end, pair.comment.sections);
    symbol := new Symbol(id.text, id.start, id.end, id.namespace, id.kind, id.isStatic, comment);
    symbol.source := source;
    source.symbols := source.symbols + {symbol};
  }

  /**
   * Adds the symbols and the file-overview comment that the scanned pairs
   * describe to an empty source unit; fails on a second file overview.
   * `built` lists the symbols in the order of the pairs they come from.
   */
  method AddPairs(source: Source, pairs: seq<DocPair>) returns (ok: bool, ghost built: seq<Symbol>)
    requires source.symbols == {} && source.filecomment == null
    modifies source
    ensures !ok <==> |FileOverviews(pairs)| > 1
    ensures source.provided == old(source.provided) && source.required == old(source.required)
    ensures ok ==>
      && IsEnumeration(built, source.symbols)
      && |built| == |Declarations(pairs)|
      && (forall j :: 0 <= j < |built| ==> fresh(built[j]) && fresh(built[j].comment))
      && (forall j :: 0 <= j < |built| ==> built[j].source == source)
      && (forall j :: 0 <= j < |built| ==> SymbolFrom(built[j], Declarations(pairs)[j]))
      && (|FileOverviews(pairs)| == 0 ==> source.filecomment == null)
      && (|FileOverviews(pairs)| == 1 ==>
            && source.filecomment != null && fresh(source.filecomment)
            && CommentFrom(source.filecomment, FileOverviews(pairs)[0]))
  {
    built := [];
    ghost var declarations: seq<DocPair> := [];
    ghost var overviews: seq<CommentMatch> := [];
    var i := 0;
    while i < |pairs|
      invariant 0 <= i <= |pairs|
      invariant declarations == Declarations(pairs[..i]) && overviews == FileOverviews(pairs[..i])
      invariant source.provided == old(source.provided) && source.required == old(source.required)
      invariant IsEnumeration(built, source.symbols)
      invariant |built| == |declarations|
      invariant forall j :: 0 <= j < |built| ==> fresh(built[j]) && fresh(built[j].comment)
      invariant forall j :: 0 <= j < |built| ==> built[j].source == source
      invariant forall j :: 0 <= j < |built| ==> SymbolFrom(built[j], declarations[j])
      invariant |overviews| <= 1
      invariant |overviews| == 0 ==> source.filecomment == null
      invariant |overviews| == 1 ==>
        && source.filecomment != null && fresh(source.filecomment)
        && CommentFrom(source.filecomment, overviews[0])
    {
      var pair := pairs[i];
      ScanStep(pairs, i);
      if pair.identifier.Some? {
        ghost var before := source.symbols;
        var symbol := AddSymbol(source, pair);
        assert symbol !in before;
        EnumerationExtend(built, before, symbol);
        built := built + [symbol];
        declarations := declarations + [pair];
      } else {
        if source.filecomment != null {
          FileOverviewsGrow(pairs, i + 1);
          return false, built;
        }
        var comment := new Comment(pair.comment.text, pair.comment.start, pair.comment.end,
                                   pair.comment.sections);
        source.filecomment := comment;
        overviews := overviews + [pair.comment];
      }
      i := i + 1;
    }
    assert pairs[..i] == pairs;
    ok := true;
  }

  /**
   * Builds the source unit of one script from what the scanner found in it.
   * `built` lists the symbols in the order of the pairs they come from.
   */
  method ScanScript(script: string, path: Option<string>, scan: ScanResult)
    returns (r: Result<Source, ScanError>, ghost built: seq<Symbol>)
    ensures r.Err? <==> |FileOverviews(scan.pairs)| > 1
    ensures r.Ok? ==>
      var source := r.value;
      && fresh(source)
      && source.script == script && source.path == path
      && source.provided == Elements(scan.provided)
      && source.required == Elements(scan.required)
      && source.symbols == Elements(built)
      && Distinct(built)
      && |built| == |Declarations(scan.pairs)|
      && (forall j :: 0 <= j < |built| ==>
            && fresh(built[j]) && fresh(built[j].comment)
            && built[j].source == source
            && SymbolFrom(built[j], Declarations(scan.pairs)[j]))
      && (|FileOverviews(scan.pairs)| == 0 ==> source.filecomment == null)
      && (|FileOverviews(scan.pairs)| == 1 ==>
            && source.filecomment != null && fresh(source.filecomment)
            && CommentFrom(source.filecomment, FileOverviews(scan.pairs)[0]))
  {
    var source := new Source(script, path);
    source.provided := source.provided + Elements(scan.provided);
    source.required := source.required + Elements(scan.required);
    var ok;
    ok, built := AddPairs(source, scan.pairs);
    if !ok {
      return Err(FileOverviewMadeTwice), built;
    }
    r := Ok(source);
  }
}
