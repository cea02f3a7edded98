# Montpellier OpenStreetMap cleaning: a Dafny model

This project models the record-cleaning logic of the Montpellier
OpenStreetMap notebook `Montpellier+OSM+Code_Full.py`:

- **The three field normalisers.**
  - The street-name normaliser: `audit_street_type` together with
    `update_name`, and its designator set and abbreviation table.
  - The postal-code normaliser `investigate_zip`.
  - The city-name normaliser `update_name_city`, with its expected-city
    set and correction table.
- **The audit accumulators those normalisers write into**:
  `street_types`, `code_list` and `other_cities`.
- **The tag-key classifier `key_type`**, with its four regular
  expressions and the `keys` counters.
- **The record shaper `shape_element`**: the `attach_attrib` projection,
  the `subnodes` loop over `tag` children, and the way-node loop over
  `nd` children.

Each piece of the notebook that updates state step by step is a Dafny
method with a loop or a class:

- `update_name`'s scans are loops.
- The accumulators form the class `Audit.Auditor`.
- `keys` is the class `KeyTypes.KeyCounter`.
- `attach_attrib`, `subnodes` and the way-node loop are methods with loop
  invariants.

Each method is proved against a specification function over values. The
properties the notebook relies on are then proved about those functions:

- which tags become rows and in which order;
- the positions of the way nodes;
- that each normaliser is idempotent. For the street normaliser this is
  proved both for the corrected cut and for the notebook's loop, under
  every iteration order of the designator set;
- that exactly one counter rises per tag.

Modules and files:

- `outcomes.dfy` (`Outcomes`): Python exceptions are modelled as
  `Raised(KeyError(k))` and `Raised(IndexError)`.
- `text.dfy` (`Text`):
  - `str.split()` with Python 2.7's unicode whitespace;
  - `' '.join`;
  - `s[:n]`;
  - first index of an element.
- `xml.dfy` (`Xml`): an ElementTree element, and `element.iter(tag)` in
  document order.
- `normalisers.dfy` (`Normalisers`):
  - the three normalisers as functions;
  - the `update_name` loops as methods;
  - the as-written set-order model.
- `audit.dfy` (`Audit`): the accumulators, as a value and as the class
  `Auditor`.
- `keytype.dfy` (`KeyTypes`): the regular expressions, the classifier and
  the counter class.
- `shaping.dfy` (`Shaping`): `shape_element`.

Inputs the notebook takes from its environment become parameters:

- **`expected` in `update_name`.** The global `expected` read at line 163
  is never defined in the notebook. The model passes it in, and the
  shaper uses the expanded designator set of lines 183-188.
- **The iteration order of that set.** The as-written model takes it as a
  sequence `order`.
- **The stale global `tag`.** `investigate_zip` reads it at lines 234
  and 238. The as-written model takes its value as the parameter `stale`.

## Model

| member | source | states |
|---|---|---|
| Text.Split | Montpellier+OSM+Code_Full.py:159 | `str.split()` yields non-empty words free of whitespace; `SplitJoin` is its round trip with `Join` |
| Text.Join | Montpellier+OSM+Code_Full.py:169 | `' '.join` as a definition; `SplitJoin` states that splitting it gives the words back |
| Text.SplitEmptyIffBlank | Montpellier+OSM+Code_Full.py:159 | `split()` yields no word exactly when every character of the string is whitespace |
| Text.SplitJoin | Montpellier+OSM+Code_Full.py:159-169 | splitting the single-space join of whitespace-free words gives the same words back |
| Text.IndexOf | Montpellier+OSM+Code_Full.py:165-172 | the counter scan stops at the first position holding the word, or at the end when the word is absent |
| Text.Prefix | Montpellier+OSM+Code_Full.py:235 | `s[:n]` never fails; it has length n when s is long enough and is s otherwise |
| Xml.Iter | Montpellier+OSM+Code_Full.py:355 | `element.iter(name)` yields only elements with that tag |
| Xml.IterOfFlatChildren | Montpellier+OSM+Code_Full.py:407 | over elements without children, the iteration yields exactly the ones with the tag, in order |
| Normalisers.DesignatorsAreWords | Montpellier+OSM+Code_Full.py:183-188 | each of the 30 expanded designators is one whitespace-free word of at least three characters |
| Normalisers.AbbreviationsExpandToDesignators | Montpellier+OSM+Code_Full.py:145-152 | every abbreviation in `mapping` expands to a designator |
| Normalisers.StreetTablesValid | Montpellier+OSM+Code_Full.py:145-152 | the two street tables meet what the street lemmas assume of them |
| Normalisers.FirstDesignator | Montpellier+OSM+Code_Full.py:163-172 | the index of the first word that is a designator; no earlier word is one |
| Normalisers.UpdatedName | Montpellier+OSM+Code_Full.py:157-179 | `update_name` with the corrected cut, as a definition; its contract is stated by `AbbreviationExpanded`, `CutAtFirstDesignator` and `NoDesignatorKept` |
| Normalisers.AuditedStreet | Montpellier+OSM+Code_Full.py:182-197 | fails with IndexError exactly when the name has no word; a name whose first word is a designator is kept verbatim |
| Normalisers.UpdateName | Montpellier+OSM+Code_Full.py:157-179 | the scan with a counter returns the name cut at its first designator, and an abbreviated first word overrides the cut |
| Normalisers.AsWrittenUpdatedName | Montpellier+OSM+Code_Full.py:157-179 | `update_name` as written, as a definition; its contract is stated by `UpdateNameAsWritten`, `AsWrittenCutsAtSomeDesignator` and `AsWrittenChangedStreetStartsWithDesignator` |
| Normalisers.AsWrittenAuditedStreet | Montpellier+OSM+Code_Full.py:182-197 | with the as-written loop: fails with IndexError exactly when the name has no word; a name whose first word is a designator is kept verbatim |
| Normalisers.AsWrittenChangedStreetStartsWithDesignator | Montpellier+OSM+Code_Full.py:157-197 | for every iteration order, every name the as-written normaliser changes comes out starting with a designator |
| Normalisers.AsWrittenStreetIdempotent | Montpellier+OSM+Code_Full.py:157-197 | for every iteration order and any tables meeting `ValidTables`, normalising a name twice with the as-written loop equals normalising it once |
| Normalisers.AsWrittenNormalisedStreetIdempotent | Montpellier+OSM+Code_Full.py:145-197 | the same for the notebook's own tables, whatever order its designator set yields |
| Normalisers.UpdateNameAsWritten | Montpellier+OSM+Code_Full.py:157-179 | the notebook's nested loops, over the designators in the set's iteration order, compute `AsWrittenUpdatedName` |
| Normalisers.CutByOrderStep | Montpellier+OSM+Code_Full.py:163-172 | one iteration of the outer loop: a designator present in the name replaces the result by the cut at its first occurrence; an absent one changes nothing |
| Normalisers.LastOccurring | Montpellier+OSM+Code_Full.py:163-164 | the last designator in iteration order that occurs in the name; no later one occurs |
| Normalisers.AbbreviationExpanded | Montpellier+OSM+Code_Full.py:176-178 | when the first word is an abbreviation, the result's words are the full designator followed by the remaining original words, whatever the cut |
| Normalisers.CutAtFirstDesignator | Montpellier+OSM+Code_Full.py:163-172 | when the first word is neither a designator nor an abbreviation, the result is the words from the first designator on, single-spaced |
| Normalisers.NoDesignatorKept | Montpellier+OSM+Code_Full.py:157-179 | a name with no designator and no abbreviation comes back verbatim |
| Normalisers.StreetOfTokens | Montpellier+OSM+Code_Full.py:157-179 | for known words: the abbreviation case, and the case where the second word is a designator |
| Normalisers.ChangedStreetStartsWithDesignator | Montpellier+OSM+Code_Full.py:182-197 | every name the normaliser changes comes out starting with a designator |
| Normalisers.StreetIdempotent | Montpellier+OSM+Code_Full.py:182-197 | normalising a normalised street name changes nothing, for any tables meeting `ValidTables` |
| Normalisers.NormalisedStreetIdempotent | Montpellier+OSM+Code_Full.py:182-197 | the same for the notebook's own tables |
| Normalisers.AvenueAbbreviated | Montpellier+OSM+Code_Full.py:145-152 | `av.` is not a designator and the table expands it to `Avenue` |
| Normalisers.AbbreviationExample | Montpellier+OSM+Code_Full.py:176-178 | a name splitting into `av. de la Liberté` becomes `Avenue de la Liberté` |
| Normalisers.CutExample | Montpellier+OSM+Code_Full.py:163-172 | a name splitting into `12 Rue Ferdinand Fabre` becomes `Rue Ferdinand Fabre` |
| Normalisers.BlankStreetRaises | Montpellier+OSM+Code_Full.py:190 | every name that splits into no word fails on `split()[0]` with IndexError, in the corrected and in the as-written normaliser, for every iteration order |
| Normalisers.BlankExample | Montpellier+OSM+Code_Full.py:190 | the name `"  "` splits into no word and so fails with IndexError |
| Normalisers.AsWrittenCutsAtSomeDesignator | Montpellier+OSM+Code_Full.py:163-172 | for every iteration order, the as-written loop cuts at the first occurrence of some designator present in the name |
| Normalisers.AsWrittenAgreesOnOneDesignator | Montpellier+OSM+Code_Full.py:163-172 | when only one distinct designator occurs, the as-written loop and the corrected cut agree for every iteration order |
| Normalisers.AsWrittenMissesFirstDesignator | Montpellier+OSM+Code_Full.py:163-172 | for every order and valid tables, `12 A de B` with A, B the first two designators visited is cut at B by the loop but at A by the corrected function |
| Normalisers.AsWrittenMissesFirstDesignatorHere | Montpellier+OSM+Code_Full.py:163-172 | the same discrepancy for the notebook's own designator set, whatever order the set yields |
| Normalisers.EnumerationHasTwo | Montpellier+OSM+Code_Full.py:183-188 | any iteration order of the designator set visits at least two designators |
| Normalisers.InvestigateZip | Montpellier+OSM+Code_Full.py:231-239 | `'error'` exactly when the first two characters are not `34`; otherwise a prefix of the input of length 2 to 5 starting with `34`, unchanged if at most 5 long, its first 5 characters if longer |
| Normalisers.ZipIdempotent | Montpellier+OSM+Code_Full.py:231-239 | applying `investigate_zip` twice equals applying it once, including on `'error'` |
| Normalisers.ZipExamples | Montpellier+OSM+Code_Full.py:231-239 | `34064 Montpellier Cedex 2` → `34064`, `34090` and `340` unchanged, `75001` and `3` → `'error'` |
| Normalisers.UpdateNameCity | Montpellier+OSM+Code_Full.py:266-289 | `update_name_city` as a definition; its contract is stated by `CityCases` and `CityIdempotent` |
| Normalisers.CorrectionsAreExpected | Montpellier+OSM+Code_Full.py:269-283 | every correction in `mapping_city` is an expected city |
| Normalisers.CityCases | Montpellier+OSM+Code_Full.py:284-289 | expected names pass unchanged; any other name is returned unchanged or mapped through the table, never rejected; a corrected name is expected |
| Normalisers.CityIdempotent | Montpellier+OSM+Code_Full.py:266-289 | normalising a city twice equals normalising it once |
| Normalisers.CityExamples | Montpellier+OSM+Code_Full.py:266-289 | `Montpelier` → `Montpellier`, `Nice` kept, `Maurin` → `Lattes` |
| Audit.AddStreet | Montpellier+OSM+Code_Full.py:192 | `defaultdict(set)` add: the key is created if absent, the name is added under it, and nothing else changes |
| Audit.NoteStreet | Montpellier+OSM+Code_Full.py:190-192 | a name whose first word is a designator records nothing; any other is recorded under its first word; the other accumulators are untouched |
| Audit.NoteZip | Montpellier+OSM+Code_Full.py:233-238 | a code longer than 5 characters or not starting with `34` is added to `code_list`; any other code changes nothing; the other accumulators never change |
| Audit.ZipReportedIffChanged | Montpellier+OSM+Code_Full.py:231-239 | a fresh code is recorded exactly when the normaliser changes it, or when it is the sentinel `'error'` itself |
| Audit.NoteZipAsWritten | Montpellier+OSM+Code_Full.py:234-238 | as written, a code longer than 5 characters or not starting with `34` adds the stale tag's value, not the code, to `code_list`; any other code changes nothing; the other accumulators never change |
| Audit.StaleTagMisreportsZip | Montpellier+OSM+Code_Full.py:234-238 | as written, a reported code is missing from `code_list` while the stale value is in it; the corrected note records the code |
| Audit.NoteCity | Montpellier+OSM+Code_Full.py:284-285 | only `other_cities` changes |
| Audit.CityReportedIffUnexpected | Montpellier+OSM+Code_Full.py:284-285 | expected names leave the accumulators untouched; any other name is added to `other_cities` |
| Audit.Auditor.constructor | Montpellier+OSM+Code_Full.py:315-316 | the accumulators start empty |
| Audit.Auditor.AuditStreetType | Montpellier+OSM+Code_Full.py:182-197 | returns the normalised street, or IndexError on a blank name, and records as `NoteStreet` says |
| Audit.Auditor.InvestigateZip | Montpellier+OSM+Code_Full.py:231-239 | returns the normalised code and records as `NoteZip` says |
| Audit.Auditor.UpdateNameCity | Montpellier+OSM+Code_Full.py:266-289 | returns the normalised city and records as `NoteCity` says |
| KeyTypes.Body | Montpellier+OSM+Code_Full.py:97-99 | what an anchored pattern must match: the key, or the key without one final newline |
| KeyTypes.MatchesLower | Montpellier+OSM+Code_Full.py:97 | `lower.search` as a definition; `LowerRunIsColonFree` states what it matches |
| KeyTypes.MatchesLowerColon | Montpellier+OSM+Code_Full.py:98 | `lower_colon.search` as a definition; `LowerColonByCount` states what it matches |
| KeyTypes.MatchesLowerDoubleColon | Montpellier+OSM+Code_Full.py:99 | `lower_double_colon.search` as a definition; `LowerDoubleColonByCount` states what it matches |
| KeyTypes.HasProblemChar | Montpellier+OSM+Code_Full.py:100 | `problemchars.search` as a definition; `LowerOrColonIsNoProblem` and `ProblemCharHiddenOnlyByFinalNewline` state what it finds |
| KeyTypes.Classify | Montpellier+OSM+Code_Full.py:106-120 | the nested tests of `key_type` as a definition; `ClassifyAgreesWithColonCount` states its contract against a reference classifier |
| KeyTypes.ClassifyByColons | Montpellier+OSM+Code_Full.py:97-121 | a reference classifier by colon count; it reports a problem key only if the key holds a problem character |
| KeyTypes.LowerRunIsColonFree | Montpellier+OSM+Code_Full.py:97 | `lower` matches exactly the lower-or-colon strings with no colon |
| KeyTypes.LowerColonByCount | Montpellier+OSM+Code_Full.py:98 | `lower_colon` matches exactly the lower-or-colon strings with one colon, in both directions |
| KeyTypes.LowerDoubleColonByCount | Montpellier+OSM+Code_Full.py:99 | `lower_double_colon` matches exactly the lower-or-colon strings with two colons, in both directions |
| KeyTypes.ClassifyAgreesWithColonCount | Montpellier+OSM+Code_Full.py:103-121 | the nested regex tests and the colon-count classifier agree on every key |
| KeyTypes.PatternsExclusive | Montpellier+OSM+Code_Full.py:97-99 | no key matches two of the three patterns, so their nesting order decides nothing among them |
| KeyTypes.ProblemCharHiddenOnlyByFinalNewline | Montpellier+OSM+Code_Full.py:97-112 | a key with a problem character escapes `problemchars` only if it ends in a newline and is otherwise a pattern key |
| KeyTypes.LowerOrColonIsNoProblem | Montpellier+OSM+Code_Full.py:100 | no letter, underscore or colon is a problem character |
| KeyTypes.LowerKey | Montpellier+OSM+Code_Full.py:106-120 | a key of lower-case letters and underscores is counted as `lower` |
| KeyTypes.LowerKeyNewline | Montpellier+OSM+Code_Full.py:97 | such a key followed by a newline is still counted as `lower` |
| KeyTypes.ProblemKey | Montpellier+OSM+Code_Full.py:106-112 | a key with a problem character and no final newline is counted as `problemchars` |
| KeyTypes.LowerExample | Montpellier+OSM+Code_Full.py:103-121 | `highway` is `lower` |
| KeyTypes.LowerColonExample | Montpellier+OSM+Code_Full.py:103-121 | `name:fr` is `lower_colon` |
| KeyTypes.FinalNewlineExample | Montpellier+OSM+Code_Full.py:97 | `name` followed by a newline is `lower` |
| KeyTypes.ProblemCharsExample | Montpellier+OSM+Code_Full.py:103-121 | `name:fr ` (with a trailing space) is `problemchars` |
| KeyTypes.Tally | Montpellier+OSM+Code_Full.py:103-121 | a non-tag element leaves the counters as they are; a tag without `k` raises KeyError; the counter keys are preserved |
| KeyTypes.ExactlyOneCounterRises | Montpellier+OSM+Code_Full.py:103-121 | for a tag, the counter of its key's category rises by one and every other counter keeps its value |
| KeyTypes.KeyCounter.constructor | Montpellier+OSM+Code_Full.py:124 | the five counters start at zero |
| KeyTypes.KeyCounter.KeyType | Montpellier+OSM+Code_Full.py:103-121 | the nested ifs update the counters as `Tally` says and keep every counter present |
| Shaping.FirstMissing | Montpellier+OSM+Code_Full.py:349-350 | the index of the first projected field the element lacks |
| Shaping.Project | Montpellier+OSM+Code_Full.py:347-351 | succeeds exactly when every field is present, giving those fields and their values; otherwise a KeyError naming the first missing field |
| Shaping.AttachAttrib | Montpellier+OSM+Code_Full.py:347-351 | the loop builds the projection or raises as `Project` says |
| Shaping.SplitKey | Montpellier+OSM+Code_Full.py:381-388 | with a colon: a colon-free type and a key joining back to `k` (the key may be empty); without one: `regular` and the whole key |
| Shaping.NormalisedValue | Montpellier+OSM+Code_Full.py:364-377 | the key-dependent normaliser choice as a definition; `NormalisedValueCases` states its contract |
| Shaping.TagRowOf | Montpellier+OSM+Code_Full.py:355-392 | one tag's row, skip or error as a definition; `TagRowOfCases` states its contract |
| Shaping.NormalisedValueCases | Montpellier+OSM+Code_Full.py:365-377 | each key is normalised by its own normaliser; a postcode normalised to `'error'` yields no value; other keys keep their value |
| Shaping.TagRowOfCases | Montpellier+OSM+Code_Full.py:355-392 | a missing `v`, or a missing `k` with non-empty `v`, raises; a row carries the id, the split key and the normalised value; a tag is skipped exactly for an empty `v` or `k`, a problem character, or a rejected postcode |
| Shaping.Fold | Montpellier+OSM+Code_Full.py:353-394 | the `subnodes` loop over a sequence of tags as a definition; `FoldRows` and `FailureSticks` state its contract |
| Shaping.TagsPass | Montpellier+OSM+Code_Full.py:353-394 | that loop over `element.iter("tag")`; `TagsPassRows` states its contract |
| Shaping.FailureSticks | Montpellier+OSM+Code_Full.py:355 | once a tag raises, the later tags change neither the result nor the accumulators |
| Shaping.FoldRows | Montpellier+OSM+Code_Full.py:353-394 | the loop raises exactly when some tag raises, with the error of the first one; otherwise its rows are the kept rows in order |
| Shaping.TagsPassRows | Montpellier+OSM+Code_Full.py:353-394 | the same, stated on the tags of the element |
| Shaping.KeptRowsCarryId | Montpellier+OSM+Code_Full.py:380 | every kept row carries the element's id |
| Shaping.RowsOfMembers | Montpellier+OSM+Code_Full.py:392 | each kept row is the row of one of the tags |
| Shaping.SubnodeBody | Montpellier+OSM+Code_Full.py:356-392 | one pass of the loop body yields the tag's row, skip or error, and records what that tag's normaliser records |
| Shaping.NormaliseValue | Montpellier+OSM+Code_Full.py:364-377 | the key-dependent normaliser calls give `NormalisedValue` and record its note |
| Shaping.Subnodes | Montpellier+OSM+Code_Full.py:353-394 | the loop's rows and accumulators are those of `TagsPass` over `element.iter("tag")` |
| Shaping.KeptRefs | Montpellier+OSM+Code_Full.py:407-416 | the way-node loop fails only with KeyError on `ref`, and keeps at most as many references as there are `nd` elements |
| Shaping.KeptRefsMembers | Montpellier+OSM+Code_Full.py:407-413 | the loop fails exactly when some `nd` lacks `ref`; otherwise it keeps exactly the non-empty references |
| Shaping.KeptRefsRaised | Montpellier+OSM+Code_Full.py:409 | once an `nd` without `ref` is met, the later ones change nothing |
| Shaping.WayNodeRows | Montpellier+OSM+Code_Full.py:405-416 | the way-node rows as a definition; `WayNodeRowsAreTheNonEmptyRefs`, `PositionsSkipEmptyRefs` and `WayShapeContents` state its contract |
| Shaping.WayNodes | Montpellier+OSM+Code_Full.py:405-416 | the loop with counter `i` yields `WayNodeRows` over `element.iter("nd")` |
| Shaping.ShapeElement | Montpellier+OSM+Code_Full.py:397-418 | the dispatch on the element kind yields `ShapeOf`'s result and accumulators |
| Shaping.ShapeOf | Montpellier+OSM+Code_Full.py:338-418 | `shape_element` over values as a definition; `OtherKindsYieldNothing`, `MissingAttributeRaises`, `NodeShapeContents` and `WayShapeContents` state its contract |
| Shaping.OtherKindsYieldNothing | Montpellier+OSM+Code_Full.py:397-418 | an element other than a node or a way yields nothing and records nothing |
| Shaping.MissingAttributeRaises | Montpellier+OSM+Code_Full.py:347-351 | a node or way missing a projected field raises the KeyError of the first missing one, before any tag is normalised |
| Shaping.NodeShapeContents | Montpellier+OSM+Code_Full.py:397-400 | a node that shapes yields its `NODE_FIELDS` projection and the kept tag rows in order, each with the node's id |
| Shaping.WayShapeContents | Montpellier+OSM+Code_Full.py:401-418 | a way that shapes yields its `WAY_FIELDS` projection, its kept references numbered from 0 in order, and the kept tag rows |
| Shaping.WayNodeRowsAreTheNonEmptyRefs | Montpellier+OSM+Code_Full.py:405-416 | every way-node row holds a non-empty reference of the way, and every non-empty reference has a row |
| Shaping.PositionsSkipEmptyRefs | Montpellier+OSM+Code_Full.py:406-416 | references `a`, empty and `b` give positions 0 and 1: positions count the kept references only |
| Shaping.PostcodeRowOf | Montpellier+OSM+Code_Full.py:369-374 | a postcode row holds 2 to 5 characters starting with `34` |
| Shaping.PostcodeRowsInRegion | Montpellier+OSM+Code_Full.py:369-392 | every kept `addr:postcode` row of an element holds 2 to 5 characters starting with `34` |

## Left out

- **Excluded program parts.**
  - XML streaming and sampling (`get_element`, the sample writer, the
    ad-hoc `iterparse` cells).
  - The `count_tags` and `process_map` drivers.
  - `validate_element` and its external schema.
  - CSV writing.
  - The SQLite and pandas queries.
  - The `print` calls.

  These are I/O, external libraries or floating point. Only the
  per-element steps are modelled.
- **`is_street_name`** and the other audit-only parsing cells are not
  called by the shaper, so they are not part of this model.
- **Element attributes.** In-place updates of `minitag.attrib['v']`
  (lines 367, 371, 377) are not modelled beyond the value that ends up in
  the row. The model's elements are immutable values, and only `tag`,
  `attrib` and the children are kept.
- **The `== None` comparisons** (lines 358, 409) are always false for
  ElementTree attribute strings, so they are omitted.
- **Python 2 text types.** The split between `str` and `unicode` is not
  modelled. All strings are sequences of code points, and table entries
  written with `\xe9` are the corresponding characters.
- **The order of the designator set.** The order in which Python iterates
  the set is not modelled. The as-written model takes it as a parameter,
  and its lemmas hold for every order.
- **Integer width.** The counters and positions are unbounded integers;
  Python integers do not overflow.

The members below state the corrected behaviour of a defect listed under
"## Findings", not the notebook's behaviour. Each line names the
as-written counterpart that models the notebook.

- Shaping.ShapeElement, Shaping.ShapeOf, Shaping.Subnodes,
  Shaping.SubnodeBody, Shaping.NormaliseValue, Shaping.TagRowOf and
  Shaping.NormalisedValue: normalise street names with the corrected cut
  at the first designator, through `NormalisedStreet`. They do not use
  the notebook's set-order loop, where the designator visited last wins.
  See "## Findings".
- Normalisers.UpdateName: computes the corrected cut at the first
  designator by position. The loop at lines 163-172 cuts at the
  designator the set yields last; that loop is
  `Normalisers.UpdateNameAsWritten`.
- Audit.Auditor.AuditStreetType: returns and records the corrected
  `NormalisedStreet`, not the notebook's set-order cut, which is
  `Normalisers.AsWrittenNormalisedStreet`.
- Normalisers.StreetOfTokens: its second-word-designator case holds for
  the corrected cut only. As written, a later designator can win; see
  `Normalisers.AsWrittenCutsAtSomeDesignator`.
- Normalisers.ChangedStreetStartsWithDesignator: stated for the corrected
  normaliser. The notebook's loop has the same property, under every
  iteration order, in
  `Normalisers.AsWrittenChangedStreetStartsWithDesignator`.
- Normalisers.StreetIdempotent: stated for the corrected normaliser. The
  as-written form is `Normalisers.AsWrittenStreetIdempotent`.
- Normalisers.NormalisedStreetIdempotent: stated for the corrected
  normaliser. The as-written form is
  `Normalisers.AsWrittenNormalisedStreetIdempotent`.
- Audit.NoteZip and Audit.Auditor.InvestigateZip: record the postal code
  they are given, not the stale global `tag.attrib['v']` that lines 234
  and 238 read. The as-written note is `Audit.NoteZipAsWritten`. See
  "## Findings".

Behaviour of the code that is easy to misread:

- **Postal codes.** A code kept by `investigate_zip` may be shorter than
  5 characters (`340` passes). Its first two characters are tested before
  truncation, which gives the same result.
- **Street names: abbreviation versus cut.** The abbreviation rewrite
  runs after the cut and overrides it. It is not an "else" branch.
- **Street names: blank input.** A name that is empty or all whitespace
  splits into no word (`Text.SplitEmptyIffBlank`) and raises IndexError on
  `split()[0]`; the normaliser does not always return a string.
- **Street names: which designator wins.** In the notebook's loop the
  cut is at the designator the set yields last, not necessarily the first
  by position. `UpdateNameAsWritten` and `AsWrittenAuditedStreet` model
  that loop. The shaper uses the corrected cut at the first designator;
  see the lines above and "## Findings".
- **Missing attributes.** A missing projected attribute, a missing `v` on
  a `tag`, a missing `k` on a `tag` whose `v` is non-empty, or a missing
  `ref` on an `nd` raises KeyError. A `tag` with an empty `v` is skipped
  before its `k` is read, so it raises nothing even without a `k`. The
  record is not dropped, and the run does not go on to the next record.
- **Empty keys.** A key such as `addr:` gives type `addr` and an empty
  key, and the row is emitted.
- **Way-node positions** count only the kept references. They are not
  indexes into the original list.
- **Newline before `$`.** A key ending in a newline can be counted as
  `lower`, `lower_colon` or `lower_double_colon`, because `$` matches
  before a final newline.

## Findings

| source | as written | input that shows it | evidently intended | confidence | as-written member | corrected member |
|---|---|---|---|---|---|---|
| Montpellier+OSM+Code_Full.py:163-172 | the name is cut at the first occurrence of whichever present designator comes last in the set's iteration order | `12 A de B`, where A and B are the first two designators the set yields, in whatever order it yields them: it is cut to `B` | cut at the first designator by position, giving `A de B` | not executed | Normalisers.AsWrittenMissesFirstDesignatorHere | Normalisers.CutAtFirstDesignator |
| Montpellier+OSM+Code_Full.py:234-238 | `code_list` receives `tag.attrib['v']` of the module-level loop variable `tag` left over from an earlier cell | `34064 Montpellier Cedex 2` while the stale `tag` holds any other value: that value is recorded, the code is not | record the code passed in, `zip_value` | not executed | Audit.StaleTagMisreportsZip | Audit.ZipReportedIffChanged |
