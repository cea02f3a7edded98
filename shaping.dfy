/** `shape_element`: turns one OSM `node` or `way` element into the flat
    rows written to the CSV files: the projected attributes, one row per
    kept `tag` child (with its value normalised) and, for a way, one row
    per referenced node. Normalising a value records into the audit
    accumulators as a side effect. */
module Shaping {
  import opened Text
  import opened Outcomes
  import opened Xml
  import opened Normalisers
  import opened KeyTypes
  import opened Audit

  /** `NODE_FIELDS` and `WAY_FIELDS`, in column order. */
  const NodeFields: seq<string> := ["id", "lat", "lon", "user", "uid", "version", "changeset", "timestamp"]
  const WayFields: seq<string> := ["id", "user", "uid", "version", "changeset", "timestamp"]

  /** The type of a tag whose key has no colon. */
  const DefaultTagType: string := "regular"

  /** A row of `nodes_tags.csv` or `ways_tags.csv`. */
  datatype TagRow = TagRow(id: string, key: string, value: string, tagType: string)

  /** A row of `ways_nodes.csv`. */
  datatype WayNodeRow = WayNodeRow(id: string, nodeId: string, position: nat)

  /** The dictionary `shape_element` returns for a node or for a way. */
  datatype Shape =
    | NodeShape(node: map<string, string>, nodeTags: seq<TagRow>)
    | WayShape(way: map<string, string>, wayNodes: seq<WayNodeRow>, wayTags: seq<TagRow>)

  // ---------------------------------------------------------- attach_attrib

  /** Index of the first field the attributes lack, or `|fields|`. */
  function FirstMissing(attrib: map<string, string>, fields: seq<string>): (k: nat)
    ensures k <= |fields|
    ensures forall j :: 0 <= j < k ==> fields[j] in attrib
    ensures k < |fields| ==> fields[k] !in attrib
  {
    if fields == [] then 0
    else if fields[0] !in attrib then 0
    else 1 + FirstMissing(attrib, fields[1..])
  }

  /** The projection `attach_attrib` builds: the listed attributes, or the
      `KeyError` of the first one that is missing. */
  function Project(attrib: map<string, string>, fields: seq<string>): (r: Outcome<map<string, string>>)
    ensures r.Ok? <==> forall j :: 0 <= j < |fields| ==> fields[j] in attrib
    ensures r.Ok? ==> r.value.Keys == (set f | f in fields) && forall f :: f in r.value ==> r.value[f] == attrib[f]
    ensures r.Raised? ==>
      exists j :: (0 <= j < |fields| && fields[j] !in attrib
        && r.error == KeyError(fields[j]) && forall i :: 0 <= i < j ==> fields[i] in attrib)
  {
    var k := FirstMissing(attrib, fields);
    if k < |fields| then Raised(KeyError(fields[k]))
    else Ok(map f | f in fields :: attrib[f])
  }

  /** `attach_attrib(fields)`: copies the fields one by one into a fresh
      dictionary; a missing one raises `KeyError`. */
  method AttachAttrib(element: Element, fields: seq<string>) returns (r: Outcome<map<string, string>>)
    ensures r == Project(element.attrib, fields)
  {
    var dictionary: map<string, string> := map[];
    for n := 0 to |fields|
      invariant forall j :: 0 <= j < n ==> fields[j] in element.attrib
      invariant dictionary == map f | f in fields[..n] :: element.attrib[f]
    {
      var x := fields[n];
      if x !in element.attrib {
        assert FirstMissing(element.attrib, fields) == n;
        return Raised(KeyError(x));
      }
      assert fields[..n + 1] == fields[..n] + [x];
      dictionary := dictionary[x := element.attrib[x]];
    }
    assert fields[..|fields|] == fields;
    r := Ok(dictionary);
  }

  // --------------------------------------------------------------- subnodes

  /** `k.split(":", 1)` when `k` has a colon, giving (type, key); otherwise
      the default type and the whole key. The key may come out empty. */
  function SplitKey(k: string): (tk: (string, string))
    ensures ':' in k ==> ':' !in tk.0 && tk.0 + ":" + tk.1 == k
    ensures ':' !in k ==> tk == (DefaultTagType, k)
  {
    if ':' in k then
      var i := IndexOf(k, ':');
      assert k == k[..i] + ":" + k[i + 1..];
      (k[..i], k[i + 1..])
    else (DefaultTagType, k)
  }

  /** The normalised value of a tag with key `k` and value `v`, or `None`
      for a postal code that the normaliser rejects. */
  function NormalisedValue(k: string, v: string): Outcome<Option<string>>
  {
    if k == "addr:street" then
      match NormalisedStreet(v)
      case Raised(e) => Raised(e)
      case Ok(s) => Ok(Some(s))
    else if k == "addr:postcode" then
      var code := InvestigateZip(v);
      if code == Rejected then Ok(None) else Ok(Some(code))
    else if k == "addr:city" then Ok(Some(UpdateNameCity(v)))
    else Ok(Some(v))
  }

  /** The three normalisers act on the values of their keys only. */
  lemma NormalisedValueCases(k: string, v: string)
    ensures k == "addr:street" ==> NormalisedValue(k, v).Raised? == NormalisedStreet(v).Raised?
    ensures k == "addr:street" && NormalisedValue(k, v).Ok? ==> NormalisedValue(k, v).value == Some(NormalisedStreet(v).value)
    ensures k == "addr:postcode" ==> NormalisedValue(k, v).Ok? && (NormalisedValue(k, v).value.None? <==> InvestigateZip(v) == Rejected)
    ensures k == "addr:postcode" && NormalisedValue(k, v).value.Some? ==> NormalisedValue(k, v).value.value == InvestigateZip(v)
    ensures k == "addr:city" ==> NormalisedValue(k, v) == Ok(Some(UpdateNameCity(v)))
    ensures k !in {"addr:street", "addr:postcode", "addr:city"} ==> NormalisedValue(k, v) == Ok(Some(v))
  {
  }

  /** What the loop body of `subnodes` makes of one `tag` element: a row,
      a skip (`None`), or the error that ends the loop. */
  function TagRowOf(id: string, t: Element): Outcome<Option<TagRow>>
  {
    if "v" !in t.attrib then Raised(KeyError("v"))
    else if t.attrib["v"] == "" then Ok(None)
    else if "k" !in t.attrib then Raised(KeyError("k"))
    else if t.attrib["k"] == "" then Ok(None)
    else if HasProblemChar(t.attrib["k"]) then Ok(None)
    else
      var k := t.attrib["k"];
      match NormalisedValue(k, t.attrib["v"])
      case Raised(e) => Raised(e)
      case Ok(None) => Ok(None)
      case Ok(Some(value)) =>
        var (tagType, key) := SplitKey(k);
        Ok(Some(TagRow(id, key, value, tagType)))
  }

  /** Which tags yield a row, which are skipped and which fail, and what
      a row holds. */
  lemma TagRowOfCases(id: string, t: Element)
    ensures "v" !in t.attrib ==> TagRowOf(id, t) == Raised(KeyError("v"))
    ensures "v" in t.attrib && t.attrib["v"] != "" && "k" !in t.attrib ==> TagRowOf(id, t) == Raised(KeyError("k"))
    ensures TagRowOf(id, t).Ok? && TagRowOf(id, t).value.Some? ==>
      && "k" in t.attrib && "v" in t.attrib
      && var k, v, row := t.attrib["k"], t.attrib["v"], TagRowOf(id, t).value.value;
      && k != "" && v != "" && !HasProblemChar(k)
      && row.id == id && (row.tagType, row.key) == SplitKey(k)
      && NormalisedValue(k, v) == Ok(Some(row.value))
    ensures TagRowOf(id, t) == Ok(None) <==>
      && "v" in t.attrib
      && (|| t.attrib["v"] == ""
          || ("k" in t.attrib && (|| t.attrib["k"] == ""
                                  || HasProblemChar(t.attrib["k"])
                                  || NormalisedValue(t.attrib["k"], t.attrib["v"]) == Ok(None))))
  {
    if "v" in t.attrib && "k" in t.attrib {
      NormalisedValueCases(t.attrib["k"], t.attrib["v"]);
    }
  }

  /** What normalising one `tag` element records into the accumulators. */
  datatype Note = NoNote | StreetNote(name: string) | ZipNote(zip: string) | CityNote(city: string)

  /** The note for a well-formed tag with key `k` and value `v`. */
  function KeyNote(k: string, v: string): Note {
    if k == "addr:street" then StreetNote(v)
    else if k == "addr:postcode" then ZipNote(v)
    else if k == "addr:city" then CityNote(v)
    else NoNote
  }

  function NoteOf(t: Element): Note {
    if "v" !in t.attrib || t.attrib["v"] == "" || "k" !in t.attrib then NoNote
    else
      var k := t.attrib["k"];
      if k == "" || HasProblemChar(k) then NoNote else KeyNote(k, t.attrib["v"])
  }

  function Record(log: AuditLog, note: Note): AuditLog {
    match note
    case NoNote => log
    case StreetNote(name) => NoteStreet(log, name)
    case ZipNote(zip) => NoteZip(log, zip)
    case CityNote(city) => NoteCity(log, city)
  }

  /** Everything one pass of the loop body does with one `tag` element. */
  datatype Effect = Effect(outcome: Outcome<Option<TagRow>>, note: Note)

  function TagEffect(id: string, t: Element): Effect {
    Effect(TagRowOf(id, t), NoteOf(t))
  }

  /** The effects of the tags, in order. */
  function Effects(id: string, tags: seq<Element>): (es: seq<Effect>)
    ensures |es| == |tags|
    decreases |tags|
  {
    if tags == [] then []
    else Effects(id, tags[..|tags| - 1]) + [TagEffect(id, tags[|tags| - 1])]
  }

  lemma {:induction false} EffectsAt(id: string, tags: seq<Element>, i: nat)
    requires i < |tags|
    ensures Effects(id, tags)[i] == TagEffect(id, tags[i])
    decreases |tags|
  {
    if i < |tags| - 1 {
      EffectsAt(id, tags[..|tags| - 1], i);
    }
  }

  lemma {:induction false} EffectsPrefix(id: string, tags: seq<Element>, n: nat)
    requires n <= |tags|
    ensures Effects(id, tags[..n]) == Effects(id, tags)[..n]
    decreases |tags|
  {
    if n < |tags| {
      var init := tags[..|tags| - 1];
      EffectsPrefix(id, init, n);
      assert init[..n] == tags[..n];
    } else {
      assert tags[..n] == tags;
    }
  }

  lemma EffectsStep(id: string, tags: seq<Element>, n: nat)
    requires n < |tags|
    ensures Effects(id, tags[..n + 1]) == Effects(id, tags[..n]) + [TagEffect(id, tags[n])]
  {
    assert tags[..n + 1][..n] == tags[..n];
  }

  /** The rows built so far, or the error, with the accumulators. */
  datatype TagPass = TagPass(rows: Outcome<seq<TagRow>>, log: AuditLog)

  /** The loop of `subnodes` over a sequence of effects: rows are appended
      in order, the first error ends the loop, and every effect up to and
      including that one is recorded. */
  function Fold(es: seq<Effect>, log: AuditLog): TagPass
    decreases |es|
  {
    if es == [] then TagPass(Ok([]), log)
    else
      var before := Fold(es[..|es| - 1], log);
      if before.rows.Raised? then before
      else
        var e := es[|es| - 1];
        var after := Record(before.log, e.note);
        match e.outcome
        case Raised(err) => TagPass(Raised(err), after)
        case Ok(None) => TagPass(before.rows, after)
        case Ok(Some(row)) => TagPass(Ok(before.rows.value + [row]), after)
  }

  /** One more effect after a pass that has not failed. */
  lemma FoldStep(es: seq<Effect>, e: Effect, log: AuditLog)
    requires !Fold(es, log).rows.Raised?
    ensures var before := Fold(es, log);
      var after := Record(before.log, e.note);
      Fold(es + [e], log) == match e.outcome
        case Raised(err) => TagPass(Raised(err), after)
        case Ok(None) => TagPass(before.rows, after)
        case Ok(Some(row)) => TagPass(Ok(before.rows.value + [row]), after)
  {
    assert (es + [e])[..|es|] == es;
  }

  /** `subnodes` over the `tag` elements `tags`. */
  function TagsPass(id: string, tags: seq<Element>, log: AuditLog): TagPass {
    Fold(Effects(id, tags), log)
  }

  /** The rows of the effects that yield one, in order. */
  function RowsOf(es: seq<Effect>): seq<TagRow> {
    if es == [] then []
    else (match es[0].outcome case Ok(Some(row)) => [row] case _ => []) + RowsOf(es[1..])
  }

  /** The rows of the tags that yield one, in tag order. */
  function KeptRows(id: string, tags: seq<Element>): seq<TagRow> {
    RowsOf(Effects(id, tags))
  }

  lemma {:induction false} RowsOfAppend(es: seq<Effect>, e: Effect)
    ensures RowsOf(es + [e]) == RowsOf(es) + (match e.outcome case Ok(Some(row)) => [row] case _ => [])
    decreases |es|
  {
    if es == [] {
      assert [e][1..] == [];
    } else {
      assert (es + [e])[1..] == es[1..] + [e];
      RowsOfAppend(es[1..], e);
    }
  }

  /** Once an effect has failed, the later ones change nothing. */
  lemma {:induction false} FailureSticks(es: seq<Effect>, n: nat, log: AuditLog)
    requires n <= |es| && Fold(es[..n], log).rows.Raised?
    ensures Fold(es, log) == Fold(es[..n], log)
    decreases |es| - n
  {
    if n < |es| {
      assert es[..n + 1][..n] == es[..n];
      FailureSticks(es, n + 1, log);
    } else {
      assert es[..n] == es;
    }
  }

  /** The loop against its declarative reading: with no failing effect the
      rows are exactly the kept rows in order; otherwise the result is the
      error of the first failing one. */
  lemma {:induction false} FoldRows(es: seq<Effect>, log: AuditLog)
    ensures Fold(es, log).rows.Raised? <==> exists i :: 0 <= i < |es| && es[i].outcome.Raised?
    ensures Fold(es, log).rows.Ok? ==> Fold(es, log).rows.value == RowsOf(es)
    ensures Fold(es, log).rows.Raised? ==>
      exists i :: 0 <= i < |es| && es[i].outcome == Raised(Fold(es, log).rows.error)
        && forall j :: 0 <= j < i ==> !es[j].outcome.Raised?
    decreases |es|
  {
    if es != [] {
      var init := es[..|es| - 1];
      var e := es[|es| - 1];
      assert es == init + [e];
      assert forall j :: 0 <= j < |init| ==> es[j] == init[j];
      FoldRows(init, log);
      RowsOfAppend(init, e);
      if Fold(init, log).rows.Raised? {
        var i :| 0 <= i < |init| && init[i].outcome == Raised(Fold(init, log).rows.error)
          && forall j :: 0 <= j < i ==> !init[j].outcome.Raised?;
        assert es[i] == init[i];
      } else if e.outcome.Raised? {
        assert es[|init|] == e;
      } else {
        assert forall j :: 0 <= j < |es| ==> !es[j].outcome.Raised?;
      }
    }
  }

  /** `subnodes` on its tags: when no tag fails, the rows are the kept rows
      in tag order; otherwise the error is that of the first failing tag. */
  lemma TagsPassRows(id: string, tags: seq<Element>, log: AuditLog)
    ensures TagsPass(id, tags, log).rows.Raised? <==> exists i :: 0 <= i < |tags| && TagRowOf(id, tags[i]).Raised?
    ensures TagsPass(id, tags, log).rows.Ok? ==> TagsPass(id, tags, log).rows.value == KeptRows(id, tags)
    ensures TagsPass(id, tags, log).rows.Raised? ==>
      exists i :: 0 <= i < |tags| && TagRowOf(id, tags[i]) == Raised(TagsPass(id, tags, log).rows.error)
        && forall j :: 0 <= j < i ==> !TagRowOf(id, tags[j]).Raised?
  {
    var es := Effects(id, tags);
    forall i | 0 <= i < |tags| ensures es[i].outcome == TagRowOf(id, tags[i]) {
      EffectsAt(id, tags, i);
    }
    FoldRows(es, log);
  }

  /** Every kept row carries the element's id. */
  lemma {:induction false} KeptRowsCarryId(id: string, tags: seq<Element>)
    ensures forall r :: r in KeptRows(id, tags) ==> r.id == id
  {
    var es := Effects(id, tags);
    forall i | 0 <= i < |tags| ensures es[i].outcome.Ok? && es[i].outcome.value.Some? ==> es[i].outcome.value.value.id == id {
      EffectsAt(id, tags, i);
      TagRowOfCases(id, tags[i]);
    }
    RowsOfCarry(es, id);
  }

  lemma {:induction false} RowsOfCarry(es: seq<Effect>, id: string)
    requires forall i :: 0 <= i < |es| && es[i].outcome.Ok? && es[i].outcome.value.Some? ==> es[i].outcome.value.value.id == id
    ensures forall r :: r in RowsOf(es) ==> r.id == id
    decreases |es|
  {
    if es != [] {
      RowsOfCarry(es[1..], id);
    }
  }

  /** One pass of the loop body of `subnodes`. */
  method SubnodeBody(minitag: Element, id: string, audit: Auditor) returns (o: Outcome<Option<TagRow>>)
    modifies audit
    ensures o == TagRowOf(id, minitag)
    ensures audit.Log() == Record(old(audit.Log()), NoteOf(minitag))
  {
    if "v" !in minitag.attrib {
      return Raised(KeyError("v"));
    }
    var v := minitag.attrib["v"];
    if v == "" {
      return Ok(None);
    }
    if "k" !in minitag.attrib {
      return Raised(KeyError("k"));
    }
    var k := minitag.attrib["k"];
    if k == "" || HasProblemChar(k) {
      return Ok(None);
    }
    var value := NormaliseValue(k, v, audit);
    match value
    case Raised(e) => return Raised(e);
    case Ok(None) => return Ok(None);
    case Ok(Some(nv)) =>
      var (tagType, key) := SplitKey(k);
      return Ok(Some(TagRow(id, key, nv, tagType)));
  }

  /** The part of the loop body of `subnodes` that depends on the key:
      the street, postal-code and city normalisers, each recording into
      the accumulators. */
  method NormaliseValue(k: string, v: string, audit: Auditor) returns (r: Outcome<Option<string>>)
    modifies audit
    ensures r == NormalisedValue(k, v)
    ensures audit.Log() == Record(old(audit.Log()), KeyNote(k, v))
  {
    if k == "addr:street" {
      var street := audit.AuditStreetType(v);
      if street.Raised? {
        return Raised(street.error);
      }
      return Ok(Some(street.value));
    } else if k == "addr:postcode" {
      var code := audit.InvestigateZip(v);
      if code == Rejected {
        return Ok(None);
      }
      return Ok(Some(code));
    } else if k == "addr:city" {
      var city := audit.UpdateNameCity(v);
      return Ok(Some(city));
    }
    return Ok(Some(v));
  }

  /** `subnodes(element)`: walks `element.iter("tag")`, normalising street,
      postal-code and city values through the accumulators. */
  method Subnodes(element: Element, id: string, audit: Auditor) returns (r: Outcome<seq<TagRow>>)
    modifies audit
    ensures TagPass(r, audit.Log()) == TagsPass(id, Iter(element, "tag"), old(audit.Log()))
  {
    var tags := Iter(element, "tag");
    var finalList: seq<TagRow> := [];
    for n := 0 to |tags|
      invariant Fold(Effects(id, tags[..n]), old(audit.Log())) == TagPass(Ok(finalList), audit.Log())
    {
      var minitag := tags[n];
      EffectsStep(id, tags, n);
      FoldStep(Effects(id, tags[..n]), TagEffect(id, minitag), old(audit.Log()));
      var o := SubnodeBody(minitag, id, audit);
      if o.Raised? {
        EffectsPrefix(id, tags, n + 1);
        FailureSticks(Effects(id, tags), n + 1, old(audit.Log()));
        return Raised(o.error);
      }
      if o.value.Some? {
        finalList := finalList + [o.value.value];
      }
    }
    assert tags[..|tags|] == tags;
    r := Ok(finalList);
  }

  // -------------------------------------------------------------- way nodes

  /** The `ref` of every `nd` element that has a non-empty one, in order,
      or the `KeyError` of the first `nd` without a `ref`. */
  function KeptRefs(nds: seq<Element>): (r: Outcome<seq<string>>)
    ensures r.Raised? ==> r.error == KeyError("ref")
    ensures r.Ok? ==> |r.value| <= |nds|
    decreases |nds|
  {
    if nds == [] then Ok([])
    else
      var init := nds[..|nds| - 1];
      var nd := nds[|nds| - 1];
      var before := KeptRefs(init);
      if before.Raised? then before
      else if "ref" !in nd.attrib then Raised(KeyError("ref"))
      else if nd.attrib["ref"] == "" then before
      else Ok(before.value + [nd.attrib["ref"]])
  }

  /** The loop fails exactly when some `nd` has no `ref`; otherwise it
      keeps exactly the non-empty references. */
  lemma {:induction false} KeptRefsMembers(nds: seq<Element>)
    ensures KeptRefs(nds).Ok? <==> forall i :: 0 <= i < |nds| ==> "ref" in nds[i].attrib
    ensures KeptRefs(nds).Ok? ==> forall x :: x in KeptRefs(nds).value <==>
      x != "" && exists i :: 0 <= i < |nds| && nds[i].attrib["ref"] == x
    decreases |nds|
  {
    if nds != [] {
      var init := nds[..|nds| - 1];
      var nd := nds[|nds| - 1];
      KeptRefsMembers(init);
      assert forall i :: 0 <= i < |init| ==> nds[i] == init[i];
      assert nds == init + [nd];
    }
  }

  /** Once an `nd` without `ref` is met, the later ones change nothing. */
  lemma {:induction false} KeptRefsRaised(nds: seq<Element>, n: nat)
    requires n <= |nds| && KeptRefs(nds[..n]).Raised?
    ensures KeptRefs(nds) == KeptRefs(nds[..n])
    decreases |nds| - n
  {
    if n < |nds| {
      assert nds[..n + 1][..n] == nds[..n];
      KeptRefsRaised(nds, n + 1);
    } else {
      assert nds[..n] == nds;
    }
  }

  /** The way-node rows: the kept refs numbered 0, 1, ... in order. */
  function Numbered(id: string, refs: seq<string>): seq<WayNodeRow> {
    seq(|refs|, p requires 0 <= p < |refs| => WayNodeRow(id, refs[p], p))
  }

  lemma NumberedAppend(id: string, refs: seq<string>, x: string)
    ensures Numbered(id, refs + [x]) == Numbered(id, refs) + [WayNodeRow(id, x, |refs|)]
  {
  }

  function WayNodeRows(id: string, nds: seq<Element>): Outcome<seq<WayNodeRow>> {
    match KeptRefs(nds)
    case Raised(e) => Raised(e)
    case Ok(refs) => Ok(Numbered(id, refs))
  }

  /** The way-node loop of `shape_element`: the position counter `i` rises
      only for the references that are kept. */
  method WayNodes(element: Element, id: string) returns (r: Outcome<seq<WayNodeRow>>)
    ensures r == WayNodeRows(id, Iter(element, "nd"))
  {
    var nds := Iter(element, "nd");
    var wayNodes: seq<WayNodeRow> := [];
    var i := 0;
    for n := 0 to |nds|
      invariant KeptRefs(nds[..n]).Ok?
      invariant wayNodes == Numbered(id, KeptRefs(nds[..n]).value)
      invariant i == |wayNodes|
    {
      var minitag := nds[n];
      assert nds[..n + 1][..n] == nds[..n];
      assert nds[..n + 1][n] == minitag;
      if "ref" !in minitag.attrib {
        KeptRefsRaised(nds, n + 1);
        return Raised(KeyError("ref"));
      }
      if minitag.attrib["ref"] == "" {
        assert KeptRefs(nds[..n + 1]) == KeptRefs(nds[..n]);
        continue;
      }
      assert KeptRefs(nds[..n + 1]) == Ok(KeptRefs(nds[..n]).value + [minitag.attrib["ref"]]);
      NumberedAppend(id, KeptRefs(nds[..n]).value, minitag.attrib["ref"]);
      wayNodes := wayNodes + [WayNodeRow(id, minitag.attrib["ref"], i)];
      i := i + 1;
    }
    assert nds[..|nds|] == nds;
    r := Ok(wayNodes);
  }

  // ---------------------------------------------------------- shape_element

  /** The outcome of `shape_element` with the accumulators after it:
      `None` for an element that is neither a node nor a way. */
  datatype ShapePass = ShapePass(result: Outcome<Option<Shape>>, log: AuditLog)

  function ShapeOf(e: Element, log: AuditLog): ShapePass {
    if e.tag == "node" then
      match Project(e.attrib, NodeFields)
      case Raised(err) => ShapePass(Raised(err), log)
      case Ok(node) =>
        assert NodeFields[0] == "id";
        var tags := TagsPass(e.attrib["id"], Iter(e, "tag"), log);
        if tags.rows.Raised? then ShapePass(Raised(tags.rows.error), tags.log)
        else ShapePass(Ok(Some(NodeShape(node, tags.rows.value))), tags.log)
    else if e.tag == "way" then
      match Project(e.attrib, WayFields)
      case Raised(err) => ShapePass(Raised(err), log)
      case Ok(way) =>
        assert WayFields[0] == "id";
        var id := e.attrib["id"];
        var tags := TagsPass(id, Iter(e, "tag"), log);
        if tags.rows.Raised? then ShapePass(Raised(tags.rows.error), tags.log)
        else
          match WayNodeRows(id, Iter(e, "nd"))
          case Raised(err) => ShapePass(Raised(err), tags.log)
          case Ok(wayNodes) => ShapePass(Ok(Some(WayShape(way, wayNodes, tags.rows.value))), tags.log)
    else ShapePass(Ok(None), log)
  }

  /** `shape_element(element)`, recording into the accumulators of `audit`. */
  method ShapeElement(element: Element, audit: Auditor) returns (r: Outcome<Option<Shape>>)
    modifies audit
    ensures ShapePass(r, audit.Log()) == ShapeOf(element, old(audit.Log()))
  {
    if element.tag == "node" {
      var nodeAttribs := AttachAttrib(element, NodeFields);
      if nodeAttribs.Raised? {
        return Raised(nodeAttribs.error);
      }
      assert NodeFields[0] == "id";
      var tags := Subnodes(element, element.attrib["id"], audit);
      if tags.Raised? {
        return Raised(tags.error);
      }
      return Ok(Some(NodeShape(nodeAttribs.value, tags.value)));
    } else if element.tag == "way" {
      var wayAttribs := AttachAttrib(element, WayFields);
      if wayAttribs.Raised? {
        return Raised(wayAttribs.error);
      }
      assert WayFields[0] == "id";
      var tags := Subnodes(element, element.attrib["id"], audit);
      if tags.Raised? {
        return Raised(tags.error);
      }
      var wayNodes := WayNodes(element, element.attrib["id"]);
      if wayNodes.Raised? {
        return Raised(wayNodes.error);
      }
      return Ok(Some(WayShape(wayAttribs.value, wayNodes.value, tags.value)));
    }
    return Ok(None);
  }

  /** An element that is neither a node nor a way yields nothing and
      records nothing. */
  lemma OtherKindsYieldNothing(e: Element, log: AuditLog)
    requires e.tag != "node" && e.tag != "way"
    ensures ShapeOf(e, log) == ShapePass(Ok(None), log)
  {
  }

  /** A node or way missing a projected attribute raises the `KeyError` of
      the first missing field before any tag is normalised. */
  lemma MissingAttributeRaises(e: Element, log: AuditLog)
    requires e.tag == "node" || e.tag == "way"
    requires var fields := if e.tag == "node" then NodeFields else WayFields;
      exists j :: 0 <= j < |fields| && fields[j] !in e.attrib
    ensures var fields := if e.tag == "node" then NodeFields else WayFields;
      && ShapeOf(e, log).log == log
      && ShapeOf(e, log).result == Raised(KeyError(fields[FirstMissing(e.attrib, fields)]))
  {
  }

  /** A node that shapes without error yields its `NODE_FIELDS` projection
      and the kept rows of its tags, each carrying the node's id. */
  lemma NodeShapeContents(e: Element, log: AuditLog)
    requires e.tag == "node" && ShapeOf(e, log).result.Ok?
    ensures ShapeOf(e, log).result.value.Some?
    ensures var s := ShapeOf(e, log).result.value.value;
      && s.NodeShape?
      && s.node.Keys == (set f | f in NodeFields)
      && (forall f :: f in s.node ==> s.node[f] == e.attrib[f])
      && s.nodeTags == KeptRows(e.attrib["id"], Iter(e, "tag"))
      && forall r :: r in s.nodeTags ==> r.id == e.attrib["id"]
  {
    assert NodeFields[0] == "id";
    TagsPassRows(e.attrib["id"], Iter(e, "tag"), log);
    KeptRowsCarryId(e.attrib["id"], Iter(e, "tag"));
  }

  /** A way that shapes without error yields its `WAY_FIELDS` projection,
      its non-empty node references numbered 0, 1, ... in order, and the
      kept rows of its tags. */
  lemma WayShapeContents(e: Element, log: AuditLog)
    requires e.tag == "way" && ShapeOf(e, log).result.Ok?
    ensures ShapeOf(e, log).result.value.Some?
    ensures KeptRefs(Iter(e, "nd")).Ok?
    ensures var s := ShapeOf(e, log).result.value.value;
      var refs := KeptRefs(Iter(e, "nd")).value;
      && s.WayShape?
      && s.way.Keys == (set f | f in WayFields)
      && (forall f :: f in s.way ==> s.way[f] == e.attrib[f])
      && |s.wayNodes| == |refs|
      && (forall p :: 0 <= p < |refs| ==> s.wayNodes[p] == WayNodeRow(e.attrib["id"], refs[p], p))
      && s.wayTags == KeptRows(e.attrib["id"], Iter(e, "tag"))
  {
    assert WayFields[0] == "id";
    TagsPassRows(e.attrib["id"], Iter(e, "tag"), log);
  }

  /** A reference that is kept is never empty, and every non-empty one is
      kept. */
  lemma WayNodeRowsAreTheNonEmptyRefs(id: string, nds: seq<Element>)
    requires WayNodeRows(id, nds).Ok?
    ensures forall i :: 0 <= i < |nds| ==> "ref" in nds[i].attrib
    ensures forall r :: r in WayNodeRows(id, nds).value ==>
      r.id == id && r.nodeId != "" && exists i :: 0 <= i < |nds| && nds[i].attrib["ref"] == r.nodeId
    ensures forall i :: 0 <= i < |nds| && nds[i].attrib["ref"] != "" ==>
      exists r :: r in WayNodeRows(id, nds).value && r.nodeId == nds[i].attrib["ref"]
  {
    KeptRefsMembers(nds);
    var refs := KeptRefs(nds).value;
    var rows := WayNodeRows(id, nds).value;
    forall r | r in rows
      ensures r.id == id && r.nodeId != "" && exists i :: 0 <= i < |nds| && nds[i].attrib["ref"] == r.nodeId
    {
      var p :| 0 <= p < |rows| && rows[p] == r;
      assert refs[p] in refs;
    }
    forall i | 0 <= i < |nds| && nds[i].attrib["ref"] != ""
      ensures exists r :: r in rows && r.nodeId == nds[i].attrib["ref"]
    {
      assert nds[i].attrib["ref"] in refs;
      var p :| 0 <= p < |refs| && refs[p] == nds[i].attrib["ref"];
      assert rows[p] in rows;
    }
  }

  /** Positions count the kept references only: with an empty reference
      between two others, the second one gets position 1, not 2. */
  lemma PositionsSkipEmptyRefs(id: string, a: string, b: string)
    requires a != "" && b != ""
    ensures var nds := [Element("nd", map["ref" := a], []), Element("nd", map["ref" := ""], []),
                        Element("nd", map["ref" := b], [])];
      WayNodeRows(id, nds) == Ok([WayNodeRow(id, a, 0), WayNodeRow(id, b, 1)])
  {
    var nd0, nd1, nd2 := Element("nd", map["ref" := a], []), Element("nd", map["ref" := ""], []),
                         Element("nd", map["ref" := b], []);
    var nds := [nd0, nd1, nd2];
    assert "ref" in nd0.attrib && nd0.attrib["ref"] == a;
    assert "ref" in nd1.attrib && nd1.attrib["ref"] == "";
    assert "ref" in nd2.attrib && nd2.attrib["ref"] == b;
    assert [nd0][..0] == [];
    assert KeptRefs([]) == Ok([]);
    assert KeptRefs([nd0]) == Ok([] + [a]);
    assert [] + [a] == [a];
    assert [nd0, nd1][..1] == [nd0] && [nd0, nd1][1] == nd1;
    assert KeptRefs([nd0, nd1]) == KeptRefs([nd0]);
    assert nds[..2] == [nd0, nd1] && nds[2] == nd2;
    assert KeptRefs(nds[..|nds| - 1]) == Ok([a]);
    assert KeptRefs(nds) == Ok([a] + [b]);
    assert [a] + [b] == [a, b];
    var rows := Numbered(id, [a, b]);
    assert rows[0] == WayNodeRow(id, a, 0) && rows[1] == WayNodeRow(id, b, 1);
    assert rows == [WayNodeRow(id, a, 0), WayNodeRow(id, b, 1)];
  }

  /** A kept row is the row of one of the tags. */
  lemma {:induction false} RowsOfMembers(es: seq<Effect>, r: TagRow)
    requires r in RowsOf(es)
    ensures exists i :: 0 <= i < |es| && es[i].outcome == Ok(Some(r))
    decreases |es|
  {
    if es[0].outcome != Ok(Some(r)) {
      RowsOfMembers(es[1..], r);
      var i :| 0 <= i < |es[1..]| && es[1..][i].outcome == Ok(Some(r));
      assert es[i + 1] == es[1..][i];
    }
  }

  /** A tag row typed `addr` with key `postcode` comes from an
      `addr:postcode` tag whose code the normaliser accepted. */
  lemma PostcodeRowOf(id: string, t: Element, r: TagRow)
    requires TagRowOf(id, t) == Ok(Some(r)) && r.tagType == "addr" && r.key == "postcode"
    ensures 2 <= |r.value| <= 5 && r.value[..2] == "34"
  {
    TagRowOfCases(id, t);
    var k, v := t.attrib["k"], t.attrib["v"];
    assert k == "addr:postcode";
    NormalisedValueCases(k, v);
  }

  /** No `addr:postcode` row leaves the shaper outside the département 34:
      its value starts with "34" and has at most five characters. */
  lemma PostcodeRowsInRegion(id: string, tags: seq<Element>)
    ensures forall r :: r in KeptRows(id, tags) && r.tagType == "addr" && r.key == "postcode" ==>
      2 <= |r.value| <= 5 && r.value[..2] == "34"
  {
    forall r | r in KeptRows(id, tags) && r.tagType == "addr" && r.key == "postcode"
      ensures 2 <= |r.value| <= 5 && r.value[..2] == "34"
    {
      var es := Effects(id, tags);
      RowsOfMembers(es, r);
      var i :| 0 <= i < |es| && es[i].outcome == Ok(Some(r));
      EffectsAt(id, tags, i);
      PostcodeRowOf(id, tags[i], r);
    }
  }
}
