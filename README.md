# jsdoctor: aggregation and rendering, modelled in Dafny

jsdoctor is a small JSDoc extractor for Closure-style JavaScript. It runs in three stages:

1. It scans every script for documentation comments and the declarations they document. Each script becomes a *source unit*: the namespaces it provides and requires, the documented symbols, and at most one file-overview comment.
2. It flattens the symbols of all units and builds a symbol table keyed by identifier. The table leaves out bookkeeping calls and `this.` members, and the first occurrence of an identifier wins. The table's symbols are then grouped by namespace.
3. It renders one HTML document per namespace. Within a document the symbols are sorted by identifier and split into seven categories in a fixed order. Each non-empty category gets an `h2` heading. Each symbol gets an `h3` with its identifier, then one `p` per description section of its comment.

This project models stages 1 to 3, from the scanner's results up to the document tree, and proves what each step promises.

Files:

- `source.dfy` (module `SourceModel`): the `Source`, `Symbol` and `Comment` classes. `ScanScript` builds a source unit in place from the scanner's results.
- `simplejsdoc.dfy` (module `SimpleJsDoc`): the path filter, the flattening of symbols, the symbol table with its duplicate policy, and grouping by namespace.
- `generator.dfy` (module `Generator`): sorting, categories, the content node list, the `html`/`body` document, and the file name of each namespace's document.
- `collections.dfy`, `strings.dfy`, `results.dfy`, `symboltypes.dfy`: sequences as enumerations of sets, filtering, Python's string predicates and string order, `Option`/`Result`, and the closed set of symbol types.

Python iterates sets and dicts in an order the program does not control. Wherever the source does this, the model picks elements with `:|`. A ghost out-parameter records the order that was taken, and the contracts say what holds for every such order.

## Model

| member | source | states |
|---|---|---|
| SourceModel.Source.constructor | source.py:4-11 | a new unit keeps its script and path, and has no provides, requires, symbols or file comment |
| SourceModel.Symbol.constructor | source.py:22-27 | a new symbol carries the given identifier, span and comment, and has no source yet |
| SourceModel.Comment.constructor | source.py:40-43 | a new comment carries the given text and span |
| SourceModel.AddSymbol | source.py:54-64 | a pair with an identifier yields a fresh symbol with a fresh comment, both built from the pair's matches; the symbol's source is the unit, and it is added to the unit's symbols while nothing else in the unit changes |
| SourceModel.AddPairs | source.py:53-67 | processing the pairs in scan order fails exactly when more than one pair has no identifier; otherwise the unit's symbols are the fresh symbols of the pairs with identifiers, one each, in order and with their fields; the file comment is absent when no pair lacks an identifier and is the sole such pair's comment when one does |
| SourceModel.ScanScript | source.py:45-69 | the unit's provides and requires are the sets of the scanner's strings; the symbols and the file comment are as in `AddPairs`; a second file-overview comment is the error result |
| SimpleJsDoc.Basename | simplejsdoc.py:18 | the file name is the longest slash-free suffix of the path |
| SimpleJsDoc.ShouldScanPath | simplejsdoc.py:17-29 | a path is scanned exactly when its file name ends in `.js`, is not `deps.js` and does not end in `_test.js` |
| SimpleJsDoc.ShouldScanPathIgnoresDirectory | simplejsdoc.py:17-29 | only the last path component decides whether a path is scanned |
| SimpleJsDoc.ScannedPathsAreScripts | simplejsdoc.py:20-21 | every scanned path ends in `.js` |
| SimpleJsDoc.DepsFileIsSkipped | simplejsdoc.py:23-24 | `deps.js` is never scanned, with or without a directory |
| SimpleJsDoc.TestScriptsAreSkipped | simplejsdoc.py:26-27 | a path ending in `_test.js` is never scanned |
| SimpleJsDoc.IgnoredIdentifiers | simplejsdoc.py:31-35 | the bookkeeping identifiers `goog.provide`, `goog.require` and `goog.setTestOnly`, which never enter the symbol map |
| SimpleJsDoc.DuplicateSymbolError | simplejsdoc.py:72-73 | the strict build's error, carrying the repeated symbol and the one already in the map |
| SimpleJsDoc.AppendSymbols | simplejsdoc.py:39-40 | one unit's symbols are appended to the stream once each, in the order the set iteration visits them |
| SimpleJsDoc.GetSymbolsFromSources | simplejsdoc.py:37-40 | the stream is the units' symbol enumerations concatenated in input order; its length is the sum of the units' symbol counts |
| SimpleJsDoc.MakeSymbolMap | simplejsdoc.py:45-70 | the loop builds exactly the left fold `SymbolMapOf`, including the error it raises in strict mode |
| SimpleJsDoc.SymbolMapErrorPersists | simplejsdoc.py:62-63 | once the strict build has raised, later symbols do not change the error |
| SimpleJsDoc.SymbolMapEntries | simplejsdoc.py:48-68 | the table's keys are exactly the identifiers that pass the filters, and every key maps to an input symbol with that identifier |
| SimpleJsDoc.SymbolMapSkipsFiltered | simplejsdoc.py:31-56 | no `goog.provide`, `goog.require`, `goog.setTestOnly` or `this.` identifier is ever a key |
| SimpleJsDoc.SymbolMapFirstWins | simplejsdoc.py:58-68 | each documentable identifier maps to the earliest input symbol that carries it |
| SimpleJsDoc.SymbolMapLenientSucceeds | simplejsdoc.py:62-66 | with the duplicate check off, the build never fails |
| SimpleJsDoc.SymbolMapStrictFailsOnDuplicate | simplejsdoc.py:58-63 | with the duplicate check on, the build fails if and only if a documentable identifier occurs twice |
| SimpleJsDoc.SymbolMapStrictAgreesWithLenient | simplejsdoc.py:58-68 | when the strict build succeeds, it yields the same table as the lenient one |
| SimpleJsDoc.DuplicateSymbolErrorNamesBoth | simplejsdoc.py:58-63 | the error names the later symbol and the first occurrence kept in the table; both are input symbols with the same documentable identifier |
| SimpleJsDoc.NamespaceMapGroups | simplejsdoc.py:76-80 | there is one non-empty group per namespace; each group holds only symbols of its namespace, and every input symbol is in its namespace's group |
| SimpleJsDoc.NamespaceMapAdd | simplejsdoc.py:78-79 | adding a symbol adds it to its namespace's group and creates the group when absent; other groups are unchanged |
| SimpleJsDoc.MakeNamespaceMap | simplejsdoc.py:76-80 | the loop builds exactly the grouping `NamespaceMapOf` |
| SimpleJsDoc.AggregatedIdentifiersAreUnique | simplejsdoc.py:99-103 | no two symbols of the table, and so no two symbols of any namespace group, share an identifier |
| Generator.MakeElement | generator.py:20-26 | the element has the tag and no children; it has a text child exactly when the content is present and non-empty |
| Generator.IsStatic | generator.py:28-29 | holds exactly when the symbol is declared static |
| Generator.IsNotStatic | generator.py:31-32 | holds exactly when `IsStatic` does not, so every symbol satisfies exactly one of the two |
| Generator.SymbolsOfType | generator.py:34-35 | the result keeps exactly the symbols of the given type |
| Generator.CategoryMembers | generator.py:28-35 | a category's members are exactly the symbols classified into it, by type and, for functions and properties, by the static flag |
| Generator.SelectedIsClassified | generator.py:60-105 | each block's selection, by type and static filter, equals the members of its category, so every symbol falls in exactly one category |
| Generator.CategoryMembersSelected | generator.py:60-105 | the seven selections the content uses are the members of the seven categories |
| Generator.SortByIdentifier | generator.py:58 | the result lists each symbol of the set once, in non-decreasing order of identifier |
| Generator.SortedEnumerationUnique | generator.py:58 | when identifiers are distinct, there is only one such sorted list |
| Generator.CategoryMembersSorted | generator.py:58-105 | within every category, identifiers are in non-decreasing order |
| Generator.AddParagraphs | generator.py:51-52 | one `p` element per description section is appended, in order |
| Generator.AddSymbolDescriptions | generator.py:48-52 | each symbol's block is appended in turn |
| Generator.ParagraphsShape | generator.py:51-52 | there are as many paragraphs as sections, and each is a `p` carrying its section's text |
| Generator.BlockShape | generator.py:48-52 | a symbol's block is an `h3` with its identifier, followed immediately by one `p` per section, in order |
| Generator.DescriptionsTexts | generator.py:48-52 | the blocks contain no `h2`, and their `h3` texts are the identifiers in order |
| Generator.AddSection | generator.py:64-66 | when a category is non-empty, its heading and its members' blocks are appended; otherwise nothing is |
| Generator.Rank | generator.py:60-105 | each category has a position in the fixed order |
| Generator.CategoryHeadingsInOrder | generator.py:60-105 | the `h2` texts are the headings of exactly the non-empty categories, in the order Constructor, Interface, Enumerations, Instance methods, Instance properties, Static methods, Static properties |
| Generator.SymbolHeadingsInOrder | generator.py:60-105 | the `h3` texts are the members' identifiers, category after category in that order |
| Generator.RenderedIsPermutation | generator.py:60-105 | the rendered symbols are a permutation of the sorted input: each symbol is rendered exactly once |
| Generator.ContentOfUnfolded | generator.py:54-109 | the content is the seven sections, one after another, in the fixed order |
| Generator.GenerateContent | generator.py:54-109 | the node list is the content of the symbols sorted by identifier |
| Generator.GenerateDocument | generator.py:37-46 | the document is an `html` root with a single `body` whose children are exactly the content nodes, in order |
| Generator.DocumentDeterministic | generator.py:37-58 | when identifiers are distinct, the document does not depend on the order in which the set was visited |
| Generator.HtmlPath | generator.py:7 | the path is the namespace followed by `.html` |
| Generator.HtmlPathInjective | generator.py:7 | distinct namespaces get distinct paths |
| Generator.DocumentEntry | generator.py:7-8 | the entry pairs the namespace's path with the document of a sorted enumeration of its symbols |
| Generator.GenerateDocs | generator.py:5-10 | there is one entry per namespace key, each visited once; every entry holds that namespace's path and document, and no two entries share a path |

## Left out

- The `scanner` module is not part of this model. Its regular-expression matching, comment-text extraction and whitespace stripping become the `ScanResult` input: the provided and required strings, and the (comment, optional identifier) pairs in scan order.
- The derivation of a symbol's namespace, type and static flag, and of a comment's description sections, is done by code that is not part of this model. These values arrive with each match and become `const` fields.
- The static flag is a `bool`. Python's truthiness test of an arbitrary attribute value (generator.py:29) is not modelled.
- SourceModel.Symbol.constructor: the comment is passed to the constructor. In source.py the constructor sets it to `None` and lines 62-63 assign it right afterwards. Nothing reads the symbol in between, so the states reached are the same.
- `Source.provides` and `Source.requires` are named `provided` and `required`, because `requires` is a Dafny keyword.
- In `ScanScript`, the work of the loop body is split into the methods `AddPairs` and `AddSymbol`. `Comment` objects are created only where they are kept: a comment built just before the assertion fails (source.py:55, 66) is never observable.
- The `__str__` methods (source.py:13-19, 29-37) are left out. Their output depends on Python's default object representation.
- `_ScanPath`, `main`'s argument handling, `_ScanPathsInParallel` and logging (simplejsdoc.py:11-15, 82-105) are left out: file I/O, process-level concurrency and side effects. As written, `main` calls `GenerateDocs` without consuming the generator it returns (simplejsdoc.py:105), so nothing is rendered. The model covers what `GenerateDocs` yields when it is consumed.
- `_DUPLICATE_SYMBOL_IS_ERROR` (simplejsdoc.py:43) is a parameter `duplicateIsError`, so both settings are covered. The source fixes it to `False`.
- The error message text of `DuplicateSymbolError` is not modelled. The error value carries the two symbols the message names.
- minidom is not part of this model. The document is a tree of `Element` values: a tag, an optional text child and element children. `toprettyxml` serialisation (generator.py:9) is left out, so `GenerateDocs` yields (path, document tree) pairs instead of (path, text) pairs. `_MakeTextNode` and `_MakeHeader` (generator.py:12-18) are subsumed by `MakeElement`; `_MakeHeader` is never called.
- The seven repeated blocks of `_GenerateContent` (generator.py:60-105) call one helper, `AddSection`, with each block's selection expression as written.
- `sorted` is modelled by a selection sort (`SortByIdentifier`). The contract states only what `sorted` guarantees about the result. Among symbols with equal identifiers, Python's stable sort keeps the set's iteration order. The model leaves that order open, and `DocumentDeterministic` shows it matters only when identifiers repeat.
- Paths are split on `/` only (`Basename`), as POSIX `os.path.split` does (simplejsdoc.py:18). On Windows a backslash also separates components, so the program skips `dir\deps.js`, which the model scans.
- The emptiness tests `if instance_methods:` and the others (generator.py:85, 91, 97, 103) are modelled as tests for an empty list. This is Python 2 behaviour, where `filter` returns a list; the source is Python 2 code (`iteritems`, generator.py:6). Under Python 3 a `filter` object is always true, and those four headings would always be emitted.
- String order is code-point order, character by character (`LexLeq`). This is Python's comparison of `str` values.
- GenerateContent: requires every symbol to carry a comment. Otherwise `_AddSymbolDescriptions` would fail on `symbol.comment.description_sections` (generator.py:51). `ScanScript` always attaches a comment.
- The order in which Python visits a set or a dict is not modelled. The model takes any order and records it in a ghost out-parameter (`built`, `blocks`, `namespaces`, `orders`, `sortedSymbols`).
