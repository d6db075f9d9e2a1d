/**
 * The aggregation steps of the extractor's driver (simplejsdoc.py): which
 * paths to scan, flattening the symbols of all source units, the
 * identifier-keyed symbol map with its filters and duplicate policy, and the
 * grouping of symbols by namespace.
 */
module SimpleJsDoc {
  import opened Results
  import opened Strings
  import opened Collections
  import opened SourceModel

  // ---------------------------------------------------------------------------
  // Path filter

  /**
   * The last component of a slash-separated path (the tail of
   * `os.path.split`): the longest suffix without a slash.
   */
  function Basename(path: string): (name: string)
    ensures '/' !in name
    ensures EndsWith(path, name)
    ensures |name| < |path| ==> path[|path| - |name| - 1] == '/'
  {
    if path == [] then []
    else if path[|path| - 1] == '/' then []
    else
      var init := path[..|path| - 1];
      var name := Basename(init) + [path[|path| - 1]];
      assert path == init + [path[|path| - 1]];
      name
  }

  /**
   * Whether a script at `path` is to be scanned: exactly when its file name
   * ends in `.js`, is not `deps.js` and does not end in `_test.js`.
   */
  function ShouldScanPath(path: string): (r: bool)
    ensures r <==> var filename := Basename(path);
      EndsWith(filename, ".js") && filename != "deps.js" && !EndsWith(filename, "_test.js")
  {
    var filename := Basename(path);
    if !EndsWith(filename, ".js") then false
    else if filename == "deps.js" then false
    else if EndsWith(filename, "_test.js") then false
    else true
  }

  /** A path without a slash is its own basename. */
  lemma BasenameOfSlashFree(name: string)
    requires '/' !in name
    ensures Basename(name) == name
  {
  }

  /** The basename of `dir/name` is `name` when `name` has no slash. */
  lemma BasenameOfJoin(dir: string, name: string)
    requires '/' !in name
    ensures Basename(dir + "/" + name) == name
  {
    var path := dir + "/" + name;
    var b := Basename(path);
    assert forall k :: |path| - |b| <= k < |path| ==> path[k] == b[k - (|path| - |b|)];
    assert path[|dir|] == '/' && path[|dir| + 1..] == name;
  }

  /** Only the last path component decides whether a path is scanned. */
  lemma ShouldScanPathIgnoresDirectory(dir: string, name: string)
    requires '/' !in name
    ensures ShouldScanPath(dir + "/" + name) == ShouldScanPath(name)
  {
    BasenameOfJoin(dir, name);
    BasenameOfSlashFree(name);
  }

  /** A scanned path always names a `.js` file. */
  lemma ScannedPathsAreScripts(path: string)
    requires ShouldScanPath(path)
    ensures EndsWith(path, ".js")
  {
    EndsWithTransitive(path, Basename(path), ".js");
  }

  /** A slash-free suffix of a path is a suffix of its basename. */
  lemma SlashFreeSuffix(path: string, suffix: string)
    requires '/' !in suffix && EndsWith(path, suffix)
    ensures EndsWith(Basename(path), suffix)
  {
    var b := Basename(path);
    assert path[|path| - |suffix|..] == b[|b| - |suffix|..];
  }

  /** Test scripts, whose names end in `_test.js`, are never scanned. */
  lemma TestScriptsAreSkipped(path: string)
    requires EndsWith(path, "_test.js")
    ensures !ShouldScanPath(path)
  {
    SlashFreeSuffix(path, "_test.js");
  }

  /** The dependency file `deps.js` is never scanned, in whatever directory. */
  lemma DepsFileIsSkipped(dir: string)
    ensures !ShouldScanPath(dir + "/deps.js")
    ensures !ShouldScanPath("deps.js")
  {
    assert dir + "/deps.js" == dir + "/" + "deps.js";
    BasenameOfJoin(dir, "deps.js");
    BasenameOfSlashFree("deps.js");
  }

  // ---------------------------------------------------------------------------
  // Flattening

  /** The total number of symbols in the source units. */
  function SymbolCount(sources: seq<Source>): nat
    reads set source | source in sources
  {
    if sources == [] then 0
    else SymbolCount(sources[..|sources| - 1]) + |sources[|sources| - 1].symbols|
  }

  /** One more source unit adds its block to the concatenation and its size to the count. */
  lemma FlattenStep(sources: seq<Source>, i: nat, blocks: seq<seq<Symbol>>, block: seq<Symbol>)
    requires i < |sources|
    ensures Concat(blocks + [block]) == Concat(blocks) + block
    ensures SymbolCount(sources[..i + 1]) == SymbolCount(sources[..i]) + |sources[i].symbols|
  {
    assert (blocks + [block])[..|blocks|] == blocks;
    assert sources[..i + 1][..i] == sources[..i];
  }

  /**
   * Appends the symbols of one unit's set, in the order an iteration over the
   * set visits them; `block` is that order.
   */
  method AppendSymbols(symbols: seq<Symbol>, unitSymbols: set<Symbol>)
    returns (extended: seq<Symbol>, ghost block: seq<Symbol>)
    ensures IsEnumeration(block, unitSymbols)
    ensures extended == symbols + block
  {
    extended, block := symbols, [];
    var rest := unitSymbols;
    while rest != {}
      invariant rest <= unitSymbols
      invariant IsEnumeration(block, unitSymbols - rest)
      invariant extended == symbols + block
      decreases |rest|
    {
      var symbol :| symbol in rest;
      EnumerationExtend(block, unitSymbols - rest, symbol);
      assert unitSymbols - (rest - {symbol}) == (unitSymbols - rest) + {symbol};
      extended := extended + [symbol];
      block := block + [symbol];
      rest := rest - {symbol};
    }
    assert unitSymbols - rest == unitSymbols;
  }

  /**
   * Yields the symbols of every source unit, unit after unit in input order.
   * Within one unit the symbols come in the order an iteration over its set
   * visits them, which the model leaves open: `blocks[i]` is that order for
   * `sources[i]`.
   */
  method GetSymbolsFromSources(sources: seq<Source>)
    returns (symbols: seq<Symbol>, ghost blocks: seq<seq<Symbol>>)
    ensures |blocks| == |sources|
    ensures forall i :: 0 <= i < |sources| ==> IsEnumeration(blocks[i], sources[i].symbols)
    ensures symbols == Concat(blocks)
    ensures |symbols| == SymbolCount(sources)
  {
    symbols, blocks := [], [];
    for i := 0 to |sources|
      invariant |blocks| == i
      invariant forall k :: 0 <= k < i ==> IsEnumeration(blocks[k], sources[k].symbols)
      invariant symbols == Concat(blocks)
      invariant |symbols| == SymbolCount(sources[..i])
    {
      ghost var block;
      symbols, block := AppendSymbols(symbols, sources[i].symbols);
      EnumerationSize(block, sources[i].symbols);
      FlattenStep(sources, i, blocks, block);
      blocks := blocks + [block];
    }
    assert sources[..|sources|] == sources;
  }

  // ---------------------------------------------------------------------------
  // Symbol map

  /** The identifiers of the module system's bookkeeping calls, never documented. */
  const IgnoredIdentifiers: set<string> := {"goog.provide", "goog.require", "goog.setTestOnly"}

  /**
   * Whether a symbol with this identifier enters the symbol map: it is not a
   * bookkeeping call and not a member of `this`.
   */
  predicate IsDocumentable(identifier: string) {
    identifier !in IgnoredIdentifiers && !StartsWith(identifier, "this.")
  }

  /** Strict mode's error: `symbol` repeats the identifier of `duplicate`, already in the map. */
  datatype DuplicateSymbolError = DuplicateSymbolError(symbol: Symbol, duplicate: Symbol)

  /**
   * The symbol map of `symbols` visited in order, as a left fold: filtered
   * identifiers are skipped, a repeated identifier keeps the entry already
   * there or, when `duplicateIsError`, stops with an error.
   */
  function SymbolMapOf(symbols: seq<Symbol>, duplicateIsError: bool)
    : Result<map<string, Symbol>, DuplicateSymbolError>
  {
    if symbols == [] then Ok(map[])
    else
      var prior := SymbolMapOf(symbols[..|symbols| - 1], duplicateIsError);
      var symbol := symbols[|symbols| - 1];
      var identifier := symbol.identifier;
      if prior.Err? || !IsDocumentable(identifier) then prior
      else if identifier in prior.value then
        if duplicateIsError then Err(DuplicateSymbolError(symbol, prior.value[identifier])) else prior
      else Ok(prior.value[identifier := symbol])
  }

  /** Builds the identifier-keyed map of the documentable symbols. */
  method MakeSymbolMap(symbols: seq<Symbol>, duplicateIsError: bool)
    returns (r: Result<map<string, Symbol>, DuplicateSymbolError>)
    ensures r == SymbolMapOf(symbols, duplicateIsError)
  {
    var symbolMap: map<string, Symbol> := map[];
    for i := 0 to |symbols|
      invariant SymbolMapOf(symbols[..i], duplicateIsError) == Ok(symbolMap)
    {
      var symbol := symbols[i];
      var identifier := symbol.identifier;
      assert symbols[..i + 1][..i] == symbols[..i];

      if identifier in IgnoredIdentifiers {
        continue;
      }
      if StartsWith(identifier, "this.") {
        continue;
      }
      if identifier in symbolMap {
        var duplicateSymbol := symbolMap[identifier];
        if duplicateIsError {
          SymbolMapErrorPersists(symbols, i + 1, duplicateIsError);
          return Err(DuplicateSymbolError(symbol, duplicateSymbol));
        }
        continue;
      }
      symbolMap := symbolMap[identifier := symbol];
    }
    assert symbols[..|symbols|] == symbols;
    r := Ok(symbolMap);
  }

  /** Once the fold has failed, later symbols do not change the error. */
  lemma {:induction false} SymbolMapErrorPersists(symbols: seq<Symbol>, n: nat, duplicateIsError: bool)
    requires n <= |symbols|
    requires SymbolMapOf(symbols[..n], duplicateIsError).Err?
    ensures SymbolMapOf(symbols, duplicateIsError) == SymbolMapOf(symbols[..n], duplicateIsError)
    decreases |symbols|
  {
    if n < |symbols| {
      var init := symbols[..|symbols| - 1];
      assert init[..n] == symbols[..n];
      SymbolMapErrorPersists(init, n, duplicateIsError);
    } else {
      assert symbols[..n] == symbols;
    }
  }

  /** The identifiers of the symbols that pass the filters. */
  function DocumentableIdentifiers(symbols: seq<Symbol>): set<string> {
    set i | 0 <= i < |symbols| && IsDocumentable(symbols[i].identifier) :: symbols[i].identifier
  }

  /**
   * The keys of the symbol map are exactly the documentable identifiers of the
   * input, and each key maps to an input symbol carrying that identifier.
   */
  lemma {:induction false} SymbolMapEntries(symbols: seq<Symbol>, duplicateIsError: bool)
    requires SymbolMapOf(symbols, duplicateIsError).Ok?
    ensures var m := SymbolMapOf(symbols, duplicateIsError).value;
      && m.Keys == DocumentableIdentifiers(symbols)
      && forall k :: k in m ==> m[k].identifier == k && m[k] in symbols
  {
    if symbols != [] {
      var init := symbols[..|symbols| - 1];
      var last := symbols[|symbols| - 1];
      assert symbols == init + [last];
      SymbolMapEntries(init, duplicateIsError);
      assert DocumentableIdentifiers(symbols)
        == DocumentableIdentifiers(init) + if IsDocumentable(last.identifier) then {last.identifier} else {}
      by {
        forall k | k in DocumentableIdentifiers(symbols)
          ensures k in DocumentableIdentifiers(init) || (IsDocumentable(last.identifier) && k == last.identifier)
        {
          var i :| 0 <= i < |symbols| && IsDocumentable(symbols[i].identifier) && symbols[i].identifier == k;
          if i < |init| { assert init[i] == symbols[i]; }
        }
        forall k | k in DocumentableIdentifiers(init) ensures k in DocumentableIdentifiers(symbols) {
          var i :| 0 <= i < |init| && IsDocumentable(init[i].identifier) && init[i].identifier == k;
          assert symbols[i] == init[i];
        }
      }
    }
  }

  /** No bookkeeping call and no `this.` member is ever a key of the symbol map. */
  lemma SymbolMapSkipsFiltered(symbols: seq<Symbol>, duplicateIsError: bool)
    requires SymbolMapOf(symbols, duplicateIsError).Ok?
    ensures forall k :: k in SymbolMapOf(symbols, duplicateIsError).value ==>
      k !in IgnoredIdentifiers && !StartsWith(k, "this.")
  {
    SymbolMapEntries(symbols, duplicateIsError);
  }

  /** No symbol before index `i` shares the identifier of `symbols[i]`. */
  predicate IsFirstOccurrence(symbols: seq<Symbol>, i: nat)
    requires i < |symbols|
  {
    forall j :: 0 <= j < i ==> symbols[j].identifier != symbols[i].identifier
  }

  /**
   * First occurrence wins: each documentable identifier maps to the earliest
   * input symbol that carries it.
   */
  lemma {:induction false} SymbolMapFirstWins(symbols: seq<Symbol>, duplicateIsError: bool)
    requires SymbolMapOf(symbols, duplicateIsError).Ok?
    ensures var m := SymbolMapOf(symbols, duplicateIsError).value;
      forall i :: 0 <= i < |symbols| && IsDocumentable(symbols[i].identifier) && IsFirstOccurrence(symbols, i) ==>
        symbols[i].identifier in m && m[symbols[i].identifier] == symbols[i]
  {
    if symbols != [] {
      var init := symbols[..|symbols| - 1];
      var last := symbols[|symbols| - 1];
      var m := SymbolMapOf(symbols, duplicateIsError).value;
      var prior := SymbolMapOf(init, duplicateIsError);
      assert prior.Ok?;
      SymbolMapFirstWins(init, duplicateIsError);
      SymbolMapEntries(init, duplicateIsError);
      forall i | 0 <= i < |symbols| && IsDocumentable(symbols[i].identifier) && IsFirstOccurrence(symbols, i)
        ensures symbols[i].identifier in m && m[symbols[i].identifier] == symbols[i]
      {
        if i < |init| {
          assert init[i] == symbols[i];
          assert IsFirstOccurrence(init, i) by {
            forall j | 0 <= j < i ensures init[j].identifier != init[i].identifier {
              assert init[j] == symbols[j];
            }
          }
          assert symbols[i].identifier in prior.value;
        } else {
          assert last.identifier !in DocumentableIdentifiers(init);
        }
      }
    }
  }

  /** Some documentable identifier occurs twice in the input. */
  predicate HasDuplicate(symbols: seq<Symbol>) {
    exists i, j :: 0 <= i < j < |symbols| && IsDocumentable(symbols[j].identifier)
      && symbols[i].identifier == symbols[j].identifier
  }

  /** With the duplicate check off, building the symbol map never fails. */
  lemma {:induction false} SymbolMapLenientSucceeds(symbols: seq<Symbol>)
    ensures SymbolMapOf(symbols, false).Ok?
  {
    if symbols != [] {
      SymbolMapLenientSucceeds(symbols[..|symbols| - 1]);
    }
  }

  /** With the duplicate check on, building the symbol map fails exactly when a documentable identifier repeats. */
  lemma {:induction false} SymbolMapStrictFailsOnDuplicate(symbols: seq<Symbol>)
    ensures SymbolMapOf(symbols, true).Err? <==> HasDuplicate(symbols)
  {
    if symbols != [] {
      var init := symbols[..|symbols| - 1];
      var last := symbols[|symbols| - 1];
      SymbolMapStrictFailsOnDuplicate(init);
      if HasDuplicate(init) {
        var i, j :| 0 <= i < j < |init| && IsDocumentable(init[j].identifier)
          && init[i].identifier == init[j].identifier;
        assert symbols[i] == init[i] && symbols[j] == init[j];
      } else {
        SymbolMapEntries(init, true);
        var lastIsRepeat := IsDocumentable(last.identifier) && last.identifier in DocumentableIdentifiers(init);
        if lastIsRepeat {
          var i :| 0 <= i < |init| && IsDocumentable(init[i].identifier) && init[i].identifier == last.identifier;
          assert symbols[i] == init[i];
        }
        if HasDuplicate(symbols) {
          var i, j :| 0 <= i < j < |symbols| && IsDocumentable(symbols[j].identifier)
            && symbols[i].identifier == symbols[j].identifier;
          if j < |init| {
            assert false;
          }
          assert init[i] == symbols[i];
          assert lastIsRepeat;
        }
      }
    }
  }

  /** When the strict build succeeds, it builds the same map as the lenient one. */
  lemma {:induction false} SymbolMapStrictAgreesWithLenient(symbols: seq<Symbol>)
    requires SymbolMapOf(symbols, true).Ok?
    ensures SymbolMapOf(symbols, true) == SymbolMapOf(symbols, false)
  {
    if symbols != [] {
      SymbolMapStrictAgreesWithLenient(symbols[..|symbols| - 1]);
    }
  }

  /**
   * The strict error names two input symbols with the same documentable
   * identifier: the later one, and the first occurrence kept in the map.
   */
  lemma {:induction false} DuplicateSymbolErrorNamesBoth(symbols: seq<Symbol>)
    requires SymbolMapOf(symbols, true).Err?
    ensures var e := SymbolMapOf(symbols, true).error;
      exists i, j :: 0 <= i < j < |symbols| && symbols[i] == e.duplicate && symbols[j] == e.symbol
        && IsDocumentable(e.symbol.identifier) && e.symbol.identifier == e.duplicate.identifier
        && IsFirstOccurrence(symbols, i)
  {
    var init := symbols[..|symbols| - 1];
    var last := symbols[|symbols| - 1];
    var e := SymbolMapOf(symbols, true).error;
    if SymbolMapOf(init, true).Err? {
      DuplicateSymbolErrorNamesBoth(init);
      var i, j :| 0 <= i < j < |init| && init[i] == e.duplicate && init[j] == e.symbol
        && IsDocumentable(e.symbol.identifier) && e.symbol.identifier == e.duplicate.identifier
        && IsFirstOccurrence(init, i);
      assert symbols[i] == init[i] && symbols[j] == init[j];
      assert IsFirstOccurrence(symbols, i) by {
        forall k | 0 <= k < i ensures symbols[k].identifier != symbols[i].identifier {
          assert symbols[k] == init[k];
        }
      }
    } else {
      SymbolMapEntries(init, true);
      SymbolMapFirstWins(init, true);
      var m := SymbolMapOf(init, true).value;
      var k := last.identifier;
      assert k in DocumentableIdentifiers(init);
      var i :| 0 <= i < |init| && IsDocumentable(init[i].identifier) && init[i].identifier == k
        && IsFirstOccurrence(init, i) by {
        var i0 :| 0 <= i0 < |init| && IsDocumentable(init[i0].identifier) && init[i0].identifier == k;
        FirstOccurrenceExists(init, i0);
      }
      assert m[k] == init[i];
      assert symbols[i] == init[i];
      assert IsFirstOccurrence(symbols, i) by {
        forall j | 0 <= j < i ensures symbols[j].identifier != symbols[i].identifier {
          assert symbols[j] == init[j];
        }
      }
    }
  }

  /** Every occurrence of an identifier has a first occurrence at or before it. */
  lemma {:induction false} FirstOccurrenceExists(symbols: seq<Symbol>, i0: nat)
    requires i0 < |symbols|
    ensures exists i :: && 0 <= i <= i0 && symbols[i].identifier == symbols[i0].identifier
                        && IsFirstOccurrence(symbols, i)
    decreases i0
  {
    if !IsFirstOccurrence(symbols, i0) {
      var j :| 0 <= j < i0 && symbols[j].identifier == symbols[i0].identifier;
      FirstOccurrenceExists(symbols, j);
    }
  }

  // ---------------------------------------------------------------------------
  // Namespace map

  /** The namespaces that some symbol has. */
  function Namespaces(symbols: set<Symbol>): set<string> {
    set s | s in symbols :: s.namespace
  }

  /** The symbols of one namespace. */
  function Group(symbols: set<Symbol>, ns: string): set<Symbol> {
    set s | s in symbols && s.namespace == ns
  }

  /** The symbols grouped by namespace. */
  function NamespaceMapOf(symbols: set<Symbol>): map<string, set<Symbol>> {
    map ns | ns in Namespaces(symbols) :: Group(symbols, ns)
  }

  /**
   * One group per namespace that some symbol has, each non-empty and holding
   * exactly the symbols of that namespace.
   */
  lemma NamespaceMapGroups(symbols: set<Symbol>)
    ensures var m := NamespaceMapOf(symbols);
      && (forall ns :: ns in m ==> m[ns] != {})
      && (forall ns, s :: ns in m && s in m[ns] ==> s in symbols && s.namespace == ns)
      && (forall s :: s in symbols ==> s.namespace in m && s in m[s.namespace])
  {
    var m := NamespaceMapOf(symbols);
    forall ns | ns in m ensures m[ns] != {} {
      var s :| s in symbols && s.namespace == ns;
      assert s in m[ns];
    }
    forall s | s in symbols ensures s.namespace in m && s in m[s.namespace] {
      assert s.namespace in Namespaces(symbols);
    }
  }

  /** Adding one symbol adds it to its own namespace's group and to no other. */
  lemma GroupAdd(done: set<Symbol>, s: Symbol, ns: string)
    ensures Group(done + {s}, ns) == Group(done, ns) + if s.namespace == ns then {s} else {}
  {
  }

  /** A namespace no symbol has has an empty group. */
  lemma GroupOutside(done: set<Symbol>, ns: string)
    requires ns !in Namespaces(done)
    ensures Group(done, ns) == {}
  {
    forall s | s in done ensures s.namespace != ns {
      assert s.namespace in Namespaces(done);
    }
  }

  /** Adding one symbol adds it to its namespace's group, creating the group if needed. */
  lemma NamespaceMapAdd(done: set<Symbol>, s: Symbol)
    ensures var m := NamespaceMapOf(done);
      NamespaceMapOf(done + {s})
        == if s.namespace in m then m[s.namespace := m[s.namespace] + {s}] else m[s.namespace := {s}]
  {
    var m := NamespaceMapOf(done);
    var m' := NamespaceMapOf(done + {s});
    var expected := if s.namespace in m then m[s.namespace := m[s.namespace] + {s}] else m[s.namespace := {s}];
    assert Namespaces(done + {s}) == Namespaces(done) + {s.namespace};
    assert m'.Keys == expected.Keys;
    forall ns | ns in m' ensures m'[ns] == expected[ns] {
      GroupAdd(done, s, ns);
      if ns == s.namespace && s.namespace !in m {
        GroupOutside(done, ns);
      }
    }
  }

  /** Groups the symbols by their namespace. */
  method MakeNamespaceMap(symbols: set<Symbol>) returns (namespaceMap: map<string, set<Symbol>>)
    ensures namespaceMap == NamespaceMapOf(symbols)
  {
    namespaceMap := map[];
    var rest := symbols;
    while rest != {}
      invariant rest <= symbols
      invariant namespaceMap == NamespaceMapOf(symbols - rest)
      decreases |rest|
    {
      var symbol :| symbol in rest;
      NamespaceMapAdd(symbols - rest, symbol);
      assert symbols - (rest - {symbol}) == (symbols - rest) + {symbol};
      var namespace := symbol.namespace;
      if namespace in namespaceMap {
        namespaceMap := namespaceMap[namespace := namespaceMap[namespace] + {symbol}];
      } else {
        namespaceMap := namespaceMap[namespace := {symbol}];
      }
      rest := rest - {symbol};
    }
    assert symbols - rest == symbols;
  }

  /**
   * After deduplication no two symbols share an identifier, in the whole
   * symbol table and so in every namespace group built from it.
   */
  lemma AggregatedIdentifiersAreUnique(symbols: seq<Symbol>, duplicateIsError: bool)
    requires SymbolMapOf(symbols, duplicateIsError).Ok?
    ensures var table := SymbolMapOf(symbols, duplicateIsError).value;
      && DistinctIdentifiers(table.Values)
      && var groups := NamespaceMapOf(table.Values);
         forall ns :: ns in groups ==> DistinctIdentifiers(groups[ns])
  {
    SymbolMapEntries(symbols, duplicateIsError);
    NamespaceMapGroups(SymbolMapOf(symbols, duplicateIsError).value.Values);
  }
}
