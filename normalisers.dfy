/** The three field normalisers of the cleaning pass: street names
    (`update_name`, `audit_street_type`), postal codes (`investigate_zip`)
    and city names (`update_name_city`), with the lookup tables they use.
    Here they are pure functions of the raw value; what they record into the
    audit accumulators is in module Audit. */
module Normalisers {
  import opened Text
  import opened Outcomes

  // ---------------------------------------------------------------- streets

  /** The expected street designators: ten French road words, each with
      the lower-case and the upper-case variant the table adds to it. */
  const StreetDesignators: set<string> := {
    "Rue", "rue", "RUE",
    "Avenue", "avenue", "AVENUE",
    "Boulevard", "boulevard", "BOULEVARD",
    "Route", "route", "ROUTE",
    "Chemin", "chemin", "CHEMIN",
    "Place", "place", "PLACE",
    "Impasse", "impasse", "IMPASSE",
    "All\U{E9}e", "all\U{E9}e", "ALL\U{C9}E",
    "Voie", "voie", "VOIE",
    "Esplanade", "esplanade", "ESPLANADE"
  }

  /** Abbreviated first words and the designator they stand for. */
  const StreetAbbreviations: map<string, string> := map[
    "av." := "Avenue",
    "ave" := "Avenue",
    "Ave." := "Avenue",
    "R." := "Rue",
    "r." := "Rue",
    "blvd" := "Boulevard",
    "blvd." := "Boulevard"
  ]

  /** What the street functions assume of their tables: every designator is
      a single word, and every abbreviation expands to a designator. */
  predicate ValidTables(expected: set<string>, mapping: map<string, string>) {
    && (forall d :: d in expected ==> IsWord(d))
    && (forall a :: a in mapping ==> mapping[a] in expected)
  }

  /** Index of the first token in `expected`, or `|ts|` when there is none. */
  function FirstDesignator(ts: seq<string>, expected: set<string>): (k: nat)
    ensures k <= |ts|
    ensures forall j :: 0 <= j < k ==> ts[j] !in expected
    ensures k < |ts| ==> ts[k] in expected
  {
    if ts == [] then 0
    else if ts[0] in expected then 0
    else 1 + FirstDesignator(ts[1..], expected)
  }

  /** `update_name` with the street cut at the first designator by position.
      An abbreviated first word is expanded and overrides the cut. */
  function UpdatedName(name: string, expected: set<string>, mapping: map<string, string>): string
    requires Split(name) != []
  {
    var ts := Split(name);
    if ts[0] in mapping then
      Join([mapping[ts[0]]] + ts[1..])
    else
      var k := FirstDesignator(ts, expected);
      if k < |ts| then Join(ts[k..]) else name
  }

  /** `audit_street_type` over the given tables: a name whose first word is
      a designator is kept; any other name goes through `update_name`; a
      name without any word fails on `split()[0]`. */
  function AuditedStreet(name: string, expected: set<string>, mapping: map<string, string>): (r: Outcome<string>)
    ensures r.Raised? <==> Split(name) == []
    ensures r.Raised? ==> r.error == IndexError
    ensures Split(name) != [] && Split(name)[0] in expected ==> r == Ok(name)
  {
    var ts := Split(name);
    if ts == [] then Raised(IndexError)
    else if ts[0] in expected then Ok(name)
    else Ok(UpdatedName(name, expected, mapping))
  }

  /** The street normaliser the cleaning pass applies to `addr:street`. */
  function NormalisedStreet(name: string): Outcome<string> {
    AuditedStreet(name, StreetDesignators, StreetAbbreviations)
  }

  lemma DesignatorsAreWordsPart1()
    ensures IsWord("Rue") && IsWord("rue") && IsWord("RUE")
    ensures IsWord("Avenue") && IsWord("avenue") && IsWord("AVENUE")
  {
  }

  lemma DesignatorsAreWordsPart2()
    ensures IsWord("Boulevard") && IsWord("boulevard") && IsWord("BOULEVARD")
    ensures IsWord("Route") && IsWord("route") && IsWord("ROUTE")
  {
  }

  lemma DesignatorsAreWordsPart3()
    ensures IsWord("Chemin") && IsWord("chemin") && IsWord("CHEMIN")
    ensures IsWord("Place") && IsWord("place") && IsWord("PLACE")
  {
  }

  lemma DesignatorsAreWordsPart4()
    ensures IsWord("Impasse") && IsWord("impasse") && IsWord("IMPASSE")
    ensures IsWord("All\U{E9}e") && IsWord("all\U{E9}e") && IsWord("ALL\U{C9}E")
  {
  }

  lemma DesignatorsAreWordsPart5()
    ensures IsWord("Voie") && IsWord("voie") && IsWord("VOIE")
    ensures IsWord("Esplanade") && IsWord("esplanade") && IsWord("ESPLANADE")
  {
  }

  /** Every designator is a single word of at least three characters. */
  lemma DesignatorsAreWords()
    ensures forall d :: d in StreetDesignators ==> IsWord(d) && |d| >= 3
  {
    DesignatorsAreWordsPart1();
    DesignatorsAreWordsPart2();
    DesignatorsAreWordsPart3();
    DesignatorsAreWordsPart4();
    DesignatorsAreWordsPart5();
  }

  lemma AbbreviationsExpandToDesignators()
    ensures forall a :: a in StreetAbbreviations ==> StreetAbbreviations[a] in StreetDesignators
  {
  }

  /** The tables of the cleaning pass satisfy what the street lemmas assume. */
  lemma StreetTablesValid()
    ensures ValidTables(StreetDesignators, StreetAbbreviations)
  {
    DesignatorsAreWords();
    AbbreviationsExpandToDesignators();
  }

  /** A name whose first word is an abbreviation becomes the designator
      followed by the remaining original words, single-spaced. */
  lemma {:induction false} AbbreviationExpanded(name: string, expected: set<string>, mapping: map<string, string>)
    requires ValidTables(expected, mapping)
    requires Split(name) != [] && Split(name)[0] in mapping && Split(name)[0] !in expected
    ensures var ts := Split(name);
      && AuditedStreet(name, expected, mapping).Ok?
      && Split(AuditedStreet(name, expected, mapping).value) == [mapping[ts[0]]] + ts[1..]
  {
    var ts := Split(name);
    SplitJoin([mapping[ts[0]]] + ts[1..]);
  }

  /** A name starting with neither a designator nor an abbreviation is cut
      at its first designator `k`, keeping the words from there on. */
  lemma {:induction false} CutAtFirstDesignator(name: string, expected: set<string>, mapping: map<string, string>, k: nat)
    requires var ts := Split(name);
      && 0 < k < |ts| && ts[k] in expected
      && (forall j :: 0 <= j < k ==> ts[j] !in expected)
      && ts[0] !in mapping
    ensures AuditedStreet(name, expected, mapping) == Ok(Join(Split(name)[k..]))
    ensures Split(AuditedStreet(name, expected, mapping).value) == Split(name)[k..]
  {
    var ts := Split(name);
    SplitJoinSuffix(ts, k);
  }

  /** Without any designator and abbreviation the name is kept verbatim. */
  lemma NoDesignatorKept(name: string, expected: set<string>, mapping: map<string, string>)
    requires var ts := Split(name);
      && ts != [] && ts[0] !in mapping
      && (forall j :: 0 <= j < |ts| ==> ts[j] !in expected)
    ensures AuditedStreet(name, expected, mapping) == Ok(name)
  {
  }

  /** Every street name the normaliser changes starts with a designator. */
  lemma {:induction false} ChangedStreetStartsWithDesignator(name: string, expected: set<string>, mapping: map<string, string>)
    requires ValidTables(expected, mapping)
    requires AuditedStreet(name, expected, mapping).Ok? && AuditedStreet(name, expected, mapping).value != name
    ensures var rs := Split(AuditedStreet(name, expected, mapping).value); rs != [] && rs[0] in expected
  {
    var ts := Split(name);
    if ts[0] in mapping {
      AbbreviationExpanded(name, expected, mapping);
    } else {
      var k := FirstDesignator(ts, expected);
      SplitJoinSuffix(ts, k);
    }
  }

  /** Cleaning a cleaned street name changes nothing. */
  lemma {:induction false} StreetIdempotent(name: string, expected: set<string>, mapping: map<string, string>)
    requires ValidTables(expected, mapping)
    requires AuditedStreet(name, expected, mapping).Ok?
    ensures var r := AuditedStreet(name, expected, mapping).value;
      AuditedStreet(r, expected, mapping) == Ok(r)
  {
    var r := AuditedStreet(name, expected, mapping).value;
    if r != name {
      ChangedStreetStartsWithDesignator(name, expected, mapping);
    }
  }

  /** The idempotence of the normaliser the cleaning pass uses. */
  lemma NormalisedStreetIdempotent(name: string)
    requires NormalisedStreet(name).Ok?
    ensures NormalisedStreet(NormalisedStreet(name).value) == NormalisedStreet(name)
  {
    StreetTablesValid();
    StreetIdempotent(name, StreetDesignators, StreetAbbreviations);
  }

  /** A name spelled `av. de la Liberté` has its abbreviation expanded. */
  lemma AbbreviationExample(name: string)
    requires Split(name) == ["av.", "de", "la", "Libert\U{E9}"]
    ensures NormalisedStreet(name) == Ok(Join(["Avenue", "de", "la", "Libert\U{E9}"]))
  {
    var ts := ["av.", "de", "la", "Libert\U{E9}"];
    AvenueAbbreviated();
    assert [StreetAbbreviations["av."]] + ts[1..] == ["Avenue", "de", "la", "Libert\U{E9}"];
    StreetOfTokens(name, ts, StreetDesignators, StreetAbbreviations);
  }

  lemma AvenueAbbreviated()
    ensures "av." !in StreetDesignators
    ensures "av." in StreetAbbreviations && StreetAbbreviations["av."] == "Avenue"
  {
  }

  /** A name spelled `12 Rue Ferdinand Fabre` loses its house number. */
  lemma CutExample(name: string)
    requires Split(name) == ["12", "Rue", "Ferdinand", "Fabre"]
    ensures NormalisedStreet(name) == Ok(Join(["Rue", "Ferdinand", "Fabre"]))
  {
    var ts := ["12", "Rue", "Ferdinand", "Fabre"];
    NeitherDesignatorNorAbbreviation();
    assert "Rue" in StreetDesignators;
    StreetOfTokens(name, ts, StreetDesignators, StreetAbbreviations);
  }

  /** What the normaliser does with a name whose tokens are known. */
  lemma StreetOfTokens(name: string, ts: seq<string>, expected: set<string>, mapping: map<string, string>)
    requires Split(name) == ts && |ts| >= 2 && ts[0] !in expected
    ensures ts[0] in mapping ==> AuditedStreet(name, expected, mapping) == Ok(Join([mapping[ts[0]]] + ts[1..]))
    ensures ts[0] !in mapping && ts[1] in expected ==> AuditedStreet(name, expected, mapping) == Ok(Join(ts[1..]))
  {
    if ts[0] !in mapping && ts[1] in expected {
      assert FirstDesignator(ts, expected) == 1;
    }
  }

  /** A name without any word fails on `split()[0]`, whatever the loop order. */
  lemma BlankStreetRaises(name: string, order: seq<string>)
    requires Split(name) == []
    ensures NormalisedStreet(name) == Raised(IndexError)
    ensures AsWrittenNormalisedStreet(name, order) == Raised(IndexError)
  {
  }

  /** A name of blanks only is such a name. */
  lemma BlankExample()
    ensures Split("  ") == []
    ensures NormalisedStreet("  ") == Raised(IndexError)
  {
    assert "  "[1..] == " ";
  }

  /** `update_name` as written: the loop visits the designators in the
      iteration order `order` of the set and, for each one that occurs among
      the tokens, overwrites the result with the suffix at its first
      occurrence; so the designator visited LAST wins. */
  function AsWrittenUpdatedName(name: string, order: seq<string>, mapping: map<string, string>): string
    requires Split(name) != []
  {
    var ts := Split(name);
    if ts[0] in mapping then
      Join([mapping[ts[0]]] + ts[1..])
    else
      CutByOrder(name, ts, order)
  }

  /** The result of the designator loop after visiting `order`. */
  function CutByOrder(name: string, ts: seq<string>, order: seq<string>): string {
    var hit := LastOccurring(order, ts);
    if hit < |order| then Join(ts[IndexOf(ts, order[hit])..]) else name
  }

  /** One more iteration of the designator loop. */
  lemma CutByOrderStep(name: string, ts: seq<string>, order: seq<string>, road: string)
    ensures CutByOrder(name, ts, order + [road])
      == if road in ts then Join(ts[IndexOf(ts, road)..]) else CutByOrder(name, ts, order)
  {
    assert (order + [road])[..|order|] == order;
  }

  /** Index in `order` of the last element that occurs in `ts`, or `|order|`. */
  function LastOccurring(order: seq<string>, ts: seq<string>): (i: nat)
    ensures i <= |order|
    ensures i < |order| ==> order[i] in ts && forall j :: i < j < |order| ==> order[j] !in ts
    ensures i == |order| ==> forall j :: 0 <= j < |order| ==> order[j] !in ts
  {
    if order == [] then 0
    else if order[|order| - 1] in ts then |order| - 1
    else
      var i := LastOccurring(order[..|order| - 1], ts);
      if i == |order| - 1 then |order| else i
  }

  /** `order` lists the set `expected` once each, as iterating the set does. */
  predicate Enumerates(order: seq<string>, expected: set<string>) {
    && (forall i, j :: 0 <= i < j < |order| ==> order[i] != order[j])
    && (forall i :: 0 <= i < |order| ==> order[i] in expected)
    && (forall d :: d in expected ==> d in order)
  }

  /** "Some occurrence": whatever the iteration order, the as-written loop
      cuts the name at the first occurrence of one of its designators. */
  lemma AsWrittenCutsAtSomeDesignator(name: string, order: seq<string>, expected: set<string>, mapping: map<string, string>)
    requires Enumerates(order, expected)
    requires var ts := Split(name);
      ts != [] && ts[0] !in mapping && exists j :: 0 <= j < |ts| && ts[j] in expected
    ensures var ts := Split(name);
      exists k :: 0 <= k < |ts| && ts[k] in expected && IndexOf(ts, ts[k]) == k
        && AsWrittenUpdatedName(name, order, mapping) == Join(ts[k..])
  {
    var ts := Split(name);
    var j :| 0 <= j < |ts| && ts[j] in expected;
    assert ts[j] in order;
    var hit := LastOccurring(order, ts);
    assert hit < |order|;
    var k := IndexOf(ts, order[hit]);
    assert ts[k] == order[hit];
  }

  /** With a single distinct designator among the words, iteration order
      does not matter and the as-written loop agrees with `UpdatedName`. */
  lemma AsWrittenAgreesOnOneDesignator(name: string, order: seq<string>, expected: set<string>, mapping: map<string, string>)
    requires Enumerates(order, expected)
    requires var ts := Split(name);
      ts != [] && forall i, j :: 0 <= i < |ts| && 0 <= j < |ts| && ts[i] in expected && ts[j] in expected ==> ts[i] == ts[j]
    ensures AsWrittenUpdatedName(name, order, mapping) == UpdatedName(name, expected, mapping)
  {
    var ts := Split(name);
    if ts[0] !in mapping {
      var hit := LastOccurring(order, ts);
      var f := FirstDesignator(ts, expected);
      assert AsWrittenUpdatedName(name, order, mapping) == CutByOrder(name, ts, order);
      assert UpdatedName(name, expected, mapping) == if f < |ts| then Join(ts[f..]) else name;
      if hit < |order| {
        var k := IndexOf(ts, order[hit]);
        assert ts[k] == order[hit] && ts[k] in expected;
        assert f <= k;
        assert ts[f] == ts[k];
        assert f == k;
      }
    }
  }

  /** The discrepancy: for every iteration order of a designator set,
      "12 A de B", with A and B the first two designators visited, is cut at
      B, the later word, and not at A, where the street name begins. */
  lemma AsWrittenMissesFirstDesignator(order: seq<string>, expected: set<string>, mapping: map<string, string>)
    requires Enumerates(order, expected) && ValidTables(expected, mapping) && |order| >= 2
    requires "12" !in expected && "de" !in expected && "12" !in mapping
    ensures Split(Join(["12", order[0], "de", order[1]])) == ["12", order[0], "de", order[1]]
    ensures var name := Join(["12", order[0], "de", order[1]]);
      && AsWrittenUpdatedName(name, order, mapping) == order[1]
      && UpdatedName(name, expected, mapping) == Join([order[0], "de", order[1]])
      && AsWrittenUpdatedName(name, order, mapping) != UpdatedName(name, expected, mapping)
  {
    var a, b := order[0], order[1];
    var ts := ["12", a, "de", b];
    assert IsWord("12") && IsWord("de");
    var name := Join(ts);
    SplitJoin(ts);
    assert Split(name) == ts;
    var hit := LastOccurring(order, ts);
    assert hit == 1 by {
      assert order[1] in ts;
    }
    assert IndexOf(ts, b) == 3 by {
      assert ts[0] != b && ts[1] != b && ts[2] != b;
    }
    assert ts[3..] == [b];
    assert FirstDesignator(ts, expected) == 1;
    assert ts[1..] == [a, "de", b];
    assert [a, "de", b][1..] == ["de", b];
    assert Join([a, "de", b]) == a + " " + Join(["de", b]);
  }

  lemma EnumerationOfTwo(order: seq<string>, expected: set<string>, a: string, b: string)
    requires Enumerates(order, expected) && a in expected && b in expected && a != b
    ensures |order| >= 2
  {
    assert a in order && b in order;
  }

  lemma EnumerationHasTwo(order: seq<string>)
    requires Enumerates(order, StreetDesignators)
    ensures |order| >= 2
  {
    assert "Rue" in StreetDesignators && "Voie" in StreetDesignators;
    EnumerationOfTwo(order, StreetDesignators, "Rue", "Voie");
  }

  lemma NeitherDesignatorNorAbbreviation()
    ensures "12" !in StreetDesignators && "de" !in StreetDesignators
    ensures "12" !in StreetAbbreviations
  {
  }

  /** The same discrepancy with the designator table of the cleaning pass:
      no iteration order of that set avoids it. */
  lemma AsWrittenMissesFirstDesignatorHere(order: seq<string>)
    requires Enumerates(order, StreetDesignators)
    ensures |order| >= 2
    ensures Split(Join(["12", order[0], "de", order[1]])) == ["12", order[0], "de", order[1]]
    ensures var name := Join(["12", order[0], "de", order[1]]);
      AsWrittenUpdatedName(name, order, StreetAbbreviations) != UpdatedName(name, StreetDesignators, StreetAbbreviations)
  {
    EnumerationHasTwo(order);
    StreetTablesValid();
    NeitherDesignatorNorAbbreviation();
    AsWrittenMissesFirstDesignator(order, StreetDesignators, StreetAbbreviations);
  }

  /** `audit_street_type` as the notebook runs it: the designator loop of
      `update_name` visits the set `expected` in the iteration order `order`. */
  function AsWrittenAuditedStreet(name: string, order: seq<string>, expected: set<string>, mapping: map<string, string>): (r: Outcome<string>)
    ensures r.Raised? <==> Split(name) == []
    ensures r.Raised? ==> r.error == IndexError
    ensures Split(name) != [] && Split(name)[0] in expected ==> r == Ok(name)
  {
    var ts := Split(name);
    if ts == [] then Raised(IndexError)
    else if ts[0] in expected then Ok(name)
    else Ok(AsWrittenUpdatedName(name, order, mapping))
  }

  /** The street normaliser of the cleaning pass as the notebook runs it. */
  function AsWrittenNormalisedStreet(name: string, order: seq<string>): Outcome<string> {
    AsWrittenAuditedStreet(name, order, StreetDesignators, StreetAbbreviations)
  }

  /** Whatever the iteration order, every street name the as-written
      normaliser changes starts with a designator. */
  lemma {:induction false} AsWrittenChangedStreetStartsWithDesignator(name: string, order: seq<string>, expected: set<string>, mapping: map<string, string>)
    requires Enumerates(order, expected) && ValidTables(expected, mapping)
    requires AsWrittenAuditedStreet(name, order, expected, mapping).Ok?
    requires AsWrittenAuditedStreet(name, order, expected, mapping).value != name
    ensures var rs := Split(AsWrittenAuditedStreet(name, order, expected, mapping).value); rs != [] && rs[0] in expected
  {
    var ts := Split(name);
    if ts[0] in mapping {
      SplitJoin([mapping[ts[0]]] + ts[1..]);
    } else {
      var hit := LastOccurring(order, ts);
      assert hit < |order|;
      var k := IndexOf(ts, order[hit]);
      assert ts[k] == order[hit] && ts[k] in expected;
      SplitJoinSuffix(ts, k);
    }
  }

  /** Whatever the iteration order, cleaning a street name cleaned by the
      as-written normaliser changes nothing. */
  lemma {:induction false} AsWrittenStreetIdempotent(name: string, order: seq<string>, expected: set<string>, mapping: map<string, string>)
    requires Enumerates(order, expected) && ValidTables(expected, mapping)
    requires AsWrittenAuditedStreet(name, order, expected, mapping).Ok?
    ensures var r := AsWrittenAuditedStreet(name, order, expected, mapping).value;
      AsWrittenAuditedStreet(r, order, expected, mapping) == Ok(r)
  {
    var r := AsWrittenAuditedStreet(name, order, expected, mapping).value;
    if r != name {
      AsWrittenChangedStreetStartsWithDesignator(name, order, expected, mapping);
    }
  }

  /** The idempotence of the as-written normaliser over the tables of the
      cleaning pass, for every iteration order of the designator set. */
  lemma AsWrittenNormalisedStreetIdempotent(name: string, order: seq<string>)
    requires Enumerates(order, StreetDesignators)
    requires AsWrittenNormalisedStreet(name, order).Ok?
    ensures AsWrittenNormalisedStreet(AsWrittenNormalisedStreet(name, order).value, order) == AsWrittenNormalisedStreet(name, order)
  {
    StreetTablesValid();
    AsWrittenStreetIdempotent(name, order, StreetDesignators, StreetAbbreviations);
  }

  /** `update_name` as the notebook runs it: for each designator in the
      set's iteration order `order` that occurs among the words, a scan with
      a counter finds its first occurrence and the name is cut there; then
      an abbreviated first word is expanded in place and overrides the cut. */
  method UpdateNameAsWritten(name: string, order: seq<string>, mapping: map<string, string>) returns (updated: string)
    requires Split(name) != []
    ensures updated == AsWrittenUpdatedName(name, order, mapping)
  {
    var nameList := Split(name);
    updated := name;
    var r := 0;
    while r < |order|
      invariant 0 <= r <= |order|
      invariant updated == CutByOrder(name, nameList, order[..r])
    {
      var road := order[r];
      assert order[..r + 1] == order[..r] + [road];
      CutByOrderStep(name, nameList, order[..r], road);
      if road in nameList {
        var i := 0;
        while i < |nameList|
          invariant 0 <= i <= |nameList|
          invariant forall j :: 0 <= j < i ==> nameList[j] != road
        {
          if nameList[i] == road {
            break;
          }
          i := i + 1;
        }
        assert i == IndexOf(nameList, road);
        updated := Join(nameList[i..]);
      }
      r := r + 1;
    }
    assert order[..r] == order;
    if nameList[0] in mapping {
      nameList := nameList[0 := mapping[nameList[0]]];
      assert nameList == [mapping[Split(name)[0]]] + Split(name)[1..];
      updated := Join(nameList);
    }
  }

  /** `update_name` cutting at the first designator by position: one scan
      of the words with a counter, then the same abbreviation step. */
  method UpdateName(name: string, expected: set<string>, mapping: map<string, string>) returns (updated: string)
    requires Split(name) != []
    ensures updated == UpdatedName(name, expected, mapping)
  {
    var nameList := Split(name);
    updated := name;
    var i := 0;
    while i < |nameList|
      invariant 0 <= i <= |nameList|
      invariant forall j :: 0 <= j < i ==> nameList[j] !in expected
    {
      if nameList[i] in expected {
        updated := Join(nameList[i..]);
        break;
      }
      i := i + 1;
    }
    assert i == FirstDesignator(nameList, expected);
    if nameList[0] in mapping {
      nameList := nameList[0 := mapping[nameList[0]]];
      assert nameList == [mapping[Split(name)[0]]] + Split(name)[1..];
      updated := Join(nameList);
    }
  }

  // ------------------------------------------------------------ postcodes

  /** The sentinel `investigate_zip` returns for a code outside the region. */
  const Rejected: string := "error"

  /** `investigate_zip`: keep at most the first five characters of a code
      from the département 34, and reject every other code. */
  function InvestigateZip(zip: string): (code: string)
    ensures code == Rejected <==> Prefix(zip, 2) != "34"
    ensures code != Rejected ==> code <= zip && 2 <= |code| <= 5 && code[..2] == "34"
    ensures code != Rejected && |zip| <= 5 ==> code == zip
    ensures code != Rejected && |zip| > 5 ==> |code| == 5
  {
    var newCode := Prefix(zip, 5);
    assert Rejected[..2] == "er";
    assert Prefix(zip, 2) == "34" ==> |zip| >= 2 && newCode[..2] == zip[..2];
    if Prefix(zip, 2) != "34" then Rejected else newCode
  }

  /** The sentinel itself is rejected again, and an accepted code is kept. */
  lemma {:induction false} ZipIdempotent(zip: string)
    ensures InvestigateZip(InvestigateZip(zip)) == InvestigateZip(zip)
  {
    var code := InvestigateZip(zip);
    if code == Rejected {
      assert Prefix(Rejected, 2) == "er";
    } else {
      assert Prefix(code, 2) == code[..2];
    }
  }

  lemma ZipExamples()
    ensures InvestigateZip("34064 Montpellier Cedex 2") == "34064"
    ensures InvestigateZip("34090") == "34090"
    ensures InvestigateZip("340") == "340"
    ensures InvestigateZip("75001") == Rejected
    ensures InvestigateZip("3") == Rejected
  {
    assert Prefix("75001", 2) == "75";
  }

  // --------------------------------------------------------------- cities

  /** City names taken as valid, with their casing variants. */
  const ExpectedCities: set<string> := {
    "Montpellier", "MONTPELLIER", "Lav\U{E9}rune", "Le Cr\U{E8}s", "montpellier",
    "Grabels", "Mauguio", "Lattes", "LATTES", "Jacou", "Castelnau-le-Lez",
    "juvignac", "Juvignac", "Saint-Cl\U{E9}ment-de-Rivi\U{E8}re",
    "Montferrier-sur-Lez", "P\U{E9}rols", "Clapiers", "Saint-Jean-de-V\U{E9}das"
  }

  /** Misspelt cities and hamlets, and the commune they stand for. */
  const CityCorrections: map<string, string> := map[
    "Castelnau le Lez" := "Castelnau-le-Lez",
    "Montpelier" := "Montpellier",
    "Saint-Jean-de-Vedas" := "Saint-Jean-de-V\U{E9}das",
    "Montpelle" := "Montpellier",
    "Castelnau le lez" := "Castelnau-le-Lez",
    "Castelnau le Les" := "Castelnau-le-Lez",
    "Saint Cl\U{E9}ment de riviere" := "Saint-Cl\U{E9}ment-de-Rivi\U{E8}re",
    "Maurin" := "Lattes"
  ]

  lemma CorrectionsAreExpected()
    ensures forall c :: c in CityCorrections ==> CityCorrections[c] in ExpectedCities
  {
  }

  /** `update_name_city`: expected names pass, known typos are corrected,
      every other name is kept; a city is never rejected. */
  function UpdateNameCity(name: string): string {
    if name !in ExpectedCities && name in CityCorrections then CityCorrections[name] else name
  }

  /** Expected names pass unchanged, a name is only ever replaced by its
      correction, and a corrected name is an expected one. */
  lemma CityCases(name: string)
    ensures name in ExpectedCities ==> UpdateNameCity(name) == name
    ensures UpdateNameCity(name) == name
      || (name in CityCorrections && UpdateNameCity(name) == CityCorrections[name])
    ensures name in CityCorrections ==> UpdateNameCity(name) in ExpectedCities
  {
    CorrectionsAreExpected();
  }

  lemma CityIdempotent(name: string)
    ensures UpdateNameCity(UpdateNameCity(name)) == UpdateNameCity(name)
  {
    CorrectionsAreExpected();
  }

  lemma CityExamples()
    ensures UpdateNameCity("Montpelier") == "Montpellier"
    ensures UpdateNameCity("Nice") == "Nice"
    ensures UpdateNameCity("Maurin") == "Lattes"
  {
  }
}
