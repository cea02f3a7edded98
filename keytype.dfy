/** `key_type`: the tag-key classifier of the exploration pass. Each tag
    key is tested against the regular expressions `lower`, `lower_colon`,
    `lower_double_colon` and `problemchars`, and one counter of the `keys`
    dictionary is incremented. */
module KeyTypes {
  import opened Outcomes
  import opened Xml
  import opened Text

  /** The five counters of the `keys` dictionary. */
  datatype Category = Lower | LowerColon | LowerDoubleColon | ProblemChars | Other

  // ---------------------------------------------------- regular expressions

  /** The character class `([a-z]|_)`. */
  predicate IsLowerChar(c: char) {
    'a' <= c <= 'z' || c == '_'
  }

  /** `([a-z]|_)*` matches the whole of `s`. */
  predicate LowerRun(s: string) {
    forall i :: 0 <= i < |s| ==> IsLowerChar(s[i])
  }

  /** What a pattern anchored by `^` and `$` has to match: `$` matches at
      the end of the text and also just before a final newline. */
  function Body(s: string): (b: string)
    ensures b == s || s == b + "\n"
  {
    if |s| > 0 && s[|s| - 1] == '\n' then s[..|s| - 1] else s
  }

  /** `lower.search(k)`, with `lower = ^([a-z]|_)*$`. */
  predicate MatchesLower(k: string) {
    LowerRun(Body(k))
  }

  /** `lower_colon.search(k)`, with `lower_colon = ^([a-z]|_)*:([a-z]|_)*$`. */
  predicate MatchesLowerColon(k: string) {
    var b := Body(k);
    exists i :: 0 <= i < |b| && b[i] == ':' && LowerRun(b[..i]) && LowerRun(b[i + 1..])
  }

  /** `lower_double_colon.search(k)`, with
      `lower_double_colon = ^([a-z]|_)*:([a-z]|_)*:([a-z]|_)*$`. */
  predicate MatchesLowerDoubleColon(k: string) {
    var b := Body(k);
    exists i, j :: 0 <= i < j < |b| && b[i] == ':' && b[j] == ':'
      && LowerRun(b[..i]) && LowerRun(b[i + 1..j]) && LowerRun(b[j + 1..])
  }

  /** The character class of `problemchars` and `PROBLEMCHARS`:
      `[=\+/&<>;\'"\?%#$@\,\. \t\r\n]`. */
  predicate IsProblemChar(c: char) {
    c in "=+/&<>;'\"?%#$@,. \t\r\n"
  }

  /** `problemchars.search(k)`: some character of `k` is a problem one. */
  predicate HasProblemChar(k: string) {
    exists i :: 0 <= i < |k| && IsProblemChar(k[i])
  }

  // --------------------------------------------------------- classification

  /** The nested tests of `key_type`, in their priority order. */
  function Classify(k: string): Category {
    if MatchesLower(k) then Lower
    else if MatchesLowerDoubleColon(k) then LowerDoubleColon
    else if MatchesLowerColon(k) then LowerColon
    else if HasProblemChar(k) then ProblemChars
    else Other
  }

  /** Number of colons in `s`. */
  function Colons(s: string): (n: nat)
    ensures n <= |s|
    ensures n == 0 <==> ':' !in s
  {
    if s == [] then 0 else (if s[0] == ':' then 1 else 0) + Colons(s[1..])
  }

  /** Every character is in `([a-z]|_)` or is a colon. */
  predicate LowerOrColon(s: string) {
    forall i :: 0 <= i < |s| ==> IsLowerChar(s[i]) || s[i] == ':'
  }

  /** A reference classifier that counts colons instead of matching the
      patterns: a key made of lower-case letters, underscores and at most
      two colons falls in the counter for its number of colons. */
  function ClassifyByColons(k: string): (c: Category)
    ensures c == ProblemChars ==> HasProblemChar(k)
  {
    var b := Body(k);
    if LowerOrColon(b) && Colons(b) == 0 then Lower
    else if LowerOrColon(b) && Colons(b) == 2 then LowerDoubleColon
    else if LowerOrColon(b) && Colons(b) == 1 then LowerColon
    else if HasProblemChar(k) then ProblemChars
    else Other
  }

  lemma {:induction false} ColonsAppend(a: string, b: string)
    ensures Colons(a + b) == Colons(a) + Colons(b)
    decreases |a|
  {
    if a == [] {
      assert a + b == b;
    } else {
      assert (a + b)[1..] == a[1..] + b;
      ColonsAppend(a[1..], b);
    }
  }

  /** Splitting a string around one of its characters. */
  lemma ColonsAround(s: string, i: nat)
    requires i < |s|
    ensures Colons(s) == Colons(s[..i]) + (if s[i] == ':' then 1 else 0) + Colons(s[i + 1..])
  {
    assert s == s[..i] + s[i..];
    ColonsAppend(s[..i], s[i..]);
    assert s[i..][0] == s[i] && s[i..][1..] == s[i + 1..];
  }

  lemma LowerRunIsColonFree(s: string)
    ensures LowerRun(s) <==> LowerOrColon(s) && Colons(s) == 0
  {
    if LowerOrColon(s) && Colons(s) == 0 {
      forall i | 0 <= i < |s| ensures IsLowerChar(s[i]) {
        assert s[i] in s;
      }
    }
  }

  /** The `lower_colon` pattern reads "exactly one colon, the rest lower". */
  lemma LowerColonByCount(k: string)
    ensures MatchesLowerColon(k) <==> LowerOrColon(Body(k)) && Colons(Body(k)) == 1
  {
    var b := Body(k);
    if MatchesLowerColon(k) {
      var i :| 0 <= i < |b| && b[i] == ':' && LowerRun(b[..i]) && LowerRun(b[i + 1..]);
      LowerRunIsColonFree(b[..i]);
      LowerRunIsColonFree(b[i + 1..]);
      ColonsAround(b, i);
      forall p | 0 <= p < |b| ensures IsLowerChar(b[p]) || b[p] == ':' {
        if p < i {
          assert b[p] == b[..i][p];
        } else if p > i {
          assert b[p] == b[i + 1..][p - i - 1];
        }
      }
    }
    if LowerOrColon(b) && Colons(b) == 1 {
      var i := IndexOf(b, ':');
      ColonsAround(b, i);
      LowerRunIsColonFree(b[..i]);
      LowerRunIsColonFree(b[i + 1..]);
    }
  }

  /** The `lower_double_colon` pattern reads "exactly two colons, the rest
      lower". */
  lemma LowerDoubleColonByCount(k: string)
    ensures MatchesLowerDoubleColon(k) <==> LowerOrColon(Body(k)) && Colons(Body(k)) == 2
  {
    var b := Body(k);
    if MatchesLowerDoubleColon(k) {
      var i, j :| 0 <= i < j < |b| && b[i] == ':' && b[j] == ':'
        && LowerRun(b[..i]) && LowerRun(b[i + 1..j]) && LowerRun(b[j + 1..]);
      DoubleColonCounted(b, i, j);
    }
    if LowerOrColon(b) && Colons(b) == 2 {
      var i, j := DoubleColonFound(b);
    }
  }

  /** Where the two colons of a lower-or-colon string are. */
  lemma DoubleColonFound(b: string) returns (i: nat, j: nat)
    requires LowerOrColon(b) && Colons(b) == 2
    ensures i < j < |b| && b[i] == ':' && b[j] == ':'
    ensures LowerRun(b[..i]) && LowerRun(b[i + 1..j]) && LowerRun(b[j + 1..])
  {
    i := FirstColon(b);
    var j' := FirstColon(b[i + 1..]);
    j := i + 1 + j';
    SliceOfSlice(b, i + 1, j');
    ColonFreePiece(b, 0, i);
    ColonFreePiece(b, i + 1, j);
    ColonFreePiece(b, j + 1, |b|);
  }

  /** The two slices of a suffix around one of its positions. */
  lemma SliceOfSlice(b: string, lo: nat, p: nat)
    requires lo <= |b| && p < |b| - lo
    ensures b[lo..][..p] == b[lo..lo + p]
    ensures b[lo..][p] == b[lo + p]
    ensures b[lo..][p + 1..] == b[lo + p + 1..]
  {
  }

  /** The first colon of a string that has one. */
  lemma FirstColon(s: string) returns (i: nat)
    requires Colons(s) >= 1
    ensures i < |s| && s[i] == ':'
    ensures Colons(s[..i]) == 0 && Colons(s[i + 1..]) == Colons(s) - 1
  {
    i := IndexOf(s, ':');
    ColonsAround(s, i);
  }

  /** A colon-free slice of a lower-or-colon string is a lower run. */
  lemma ColonFreePiece(b: string, lo: nat, hi: nat)
    requires LowerOrColon(b) && lo <= hi <= |b| && Colons(b[lo..hi]) == 0
    ensures LowerRun(b[lo..hi])
    ensures lo == 0 ==> LowerRun(b[..hi])
    ensures hi == |b| ==> LowerRun(b[lo..])
  {
    assert b[..hi] == b[0..hi] && b[lo..] == b[lo..|b|];
    var piece := b[lo..hi];
    forall p | 0 <= p < |piece| ensures IsLowerChar(piece[p]) {
      assert piece[p] == b[lo + p];
      assert piece[p] in piece;
    }
  }

  /** Two colons at `i` and `j` with lower runs around them. */
  lemma DoubleColonCounted(b: string, i: nat, j: nat)
    requires i < j < |b| && b[i] == ':' && b[j] == ':'
    requires LowerRun(b[..i]) && LowerRun(b[i + 1..j]) && LowerRun(b[j + 1..])
    ensures LowerOrColon(b) && Colons(b) == 2
  {
    var rest := b[i + 1..];
    assert rest[..j - i - 1] == b[i + 1..j];
    assert rest[j - i..] == b[j + 1..];
    LowerRunIsColonFree(b[..i]);
    LowerRunIsColonFree(b[i + 1..j]);
    LowerRunIsColonFree(b[j + 1..]);
    ColonsAround(b, i);
    ColonsAround(rest, j - i - 1);
    forall p | 0 <= p < |b| ensures IsLowerChar(b[p]) || b[p] == ':' {
      if p < i {
        assert b[p] == b[..i][p];
      } else if i < p < j {
        assert b[p] == b[i + 1..j][p - i - 1];
      } else if p > j {
        assert b[p] == b[j + 1..][p - j - 1];
      }
    }
  }

  /** The nested regular expressions and the colon count agree on every key. */
  lemma ClassifyAgreesWithColonCount(k: string)
    ensures Classify(k) == ClassifyByColons(k)
  {
    LowerRunIsColonFree(Body(k));
    LowerColonByCount(k);
    LowerDoubleColonByCount(k);
  }

  /** The three pattern tests exclude each other, so their nesting order
      decides nothing among them. */
  lemma PatternsExclusive(k: string)
    ensures !(MatchesLower(k) && MatchesLowerColon(k))
    ensures !(MatchesLower(k) && MatchesLowerDoubleColon(k))
    ensures !(MatchesLowerColon(k) && MatchesLowerDoubleColon(k))
  {
    LowerRunIsColonFree(Body(k));
    LowerColonByCount(k);
    LowerDoubleColonByCount(k);
  }

  /** Only a final newline lets a key with a problem character escape the
      `problemchars` counter: `$` matches before it, so `"name\n"` counts
      as `lower`. */
  lemma ProblemCharHiddenOnlyByFinalNewline(k: string)
    requires HasProblemChar(k) && Classify(k) != ProblemChars
    ensures Classify(k) in {Lower, LowerColon, LowerDoubleColon}
    ensures |k| > 0 && k[|k| - 1] == '\n'
    ensures !HasProblemChar(Body(k))
  {
    ClassifyAgreesWithColonCount(k);
    var b := Body(k);
    assert LowerOrColon(b);
    forall i | 0 <= i < |b| ensures !IsProblemChar(b[i]) {
      LowerOrColonIsNoProblem(b[i]);
    }
    assert b != k;
  }

  lemma LowerOrColonIsNoProblem(c: char)
    requires IsLowerChar(c) || c == ':'
    ensures !IsProblemChar(c)
  {
  }

  /** A key of lower-case letters and underscores is counted as `lower`. */
  lemma LowerKey(k: string)
    requires LowerRun(k)
    ensures Classify(k) == Lower
  {
    assert Body(k) == k by {
      if |k| > 0 {
        assert IsLowerChar(k[|k| - 1]);
      }
    }
  }

  /** So is such a key followed by a newline. */
  lemma LowerKeyNewline(k: string)
    requires LowerRun(k)
    ensures Classify(k + "\n") == Lower
  {
    assert (k + "\n")[..|k|] == k;
  }

  /** A key holding a problem character, and not ending in a newline, is
      counted under `problemchars`. */
  lemma ProblemKey(k: string, p: nat)
    requires p < |k| && IsProblemChar(k[p]) && k[|k| - 1] != '\n'
    ensures Classify(k) == ProblemChars
  {
    ClassifyAgreesWithColonCount(k);
    assert Body(k) == k;
    if IsLowerChar(k[p]) || k[p] == ':' {
      LowerOrColonIsNoProblem(k[p]);
    }
  }

  lemma LowerExample()
    ensures Classify("highway") == Lower
  {
    LowerKey("highway");
  }

  lemma LowerColonExample()
    ensures Classify("name:fr") == LowerColon
  {
    var k := "name:fr";
    assert Body(k) == k && k[4] == ':' && k[..4] == "name" && k[5..] == "fr";
    assert !MatchesLower(k) by {
      assert !IsLowerChar(k[4]);
    }
    PatternsExclusive(k);
  }

  /** A key ending in a newline is counted as `lower`. */
  lemma FinalNewlineExample()
    ensures Classify("name\n") == Lower
  {
    LowerKeyNewline("name");
    assert "name" + "\n" == "name\n";
  }

  lemma ProblemCharsExample()
    ensures Classify("name:fr ") == ProblemChars
  {
    ProblemKey("name:fr ", 7);
  }

  // --------------------------------------------------------------- counting

  /** The counters as `process_map` creates them. */
  const FreshCounters: map<Category, int> :=
    map[Lower := 0, LowerColon := 0, LowerDoubleColon := 0, ProblemChars := 0, Other := 0]

  /** Every counter is present, so no increment can fail. */
  predicate AllCounters(keys: map<Category, int>) {
    forall c: Category :: c in keys
  }

  /** `key_type(element, keys)` on the counters as a value: a `tag` element
      raises the counter of its key's category, a `tag` element without a
      `k` attribute fails, any other element changes nothing. */
  function Tally(keys: map<Category, int>, element: Element): (r: Outcome<map<Category, int>>)
    requires AllCounters(keys)
    ensures element.tag != "tag" ==> r == Ok(keys)
    ensures element.tag == "tag" && "k" !in element.attrib ==> r == Raised(KeyError("k"))
    ensures r.Ok? ==> AllCounters(r.value) && r.value.Keys == keys.Keys
  {
    if element.tag != "tag" then Ok(keys)
    else if "k" !in element.attrib then Raised(KeyError("k"))
    else
      var c := Classify(element.attrib["k"]);
      Ok(keys[c := keys[c] + 1])
  }

  /** For a `tag` element exactly one counter, its key's category, rises
      by one; all others keep their value. */
  lemma ExactlyOneCounterRises(keys: map<Category, int>, element: Element)
    requires AllCounters(keys) && element.tag == "tag" && "k" in element.attrib
    ensures Tally(keys, element).Ok?
    ensures var after := Tally(keys, element).value;
      && after[Classify(element.attrib["k"])] == keys[Classify(element.attrib["k"])] + 1
      && forall c :: c != Classify(element.attrib["k"]) ==> after[c] == keys[c]
  {
  }

  /** The `keys` dictionary of the exploration pass. */
  class KeyCounter {
    var keys: map<Category, int>

    predicate Valid()
      reads this
    {
      AllCounters(keys)
    }

    constructor ()
      ensures keys == FreshCounters && Valid()
    {
      keys := FreshCounters;
      new;
      forall c: Category ensures c in keys {
        assert c.Lower? || c.LowerColon? || c.LowerDoubleColon? || c.ProblemChars? || c.Other?;
      }
    }

    /** `key_type(element, keys)`: returns the dictionary it updates. */
    method KeyType(element: Element) returns (r: Outcome<map<Category, int>>)
      requires Valid()
      modifies this
      ensures Valid()
      ensures r == Tally(old(keys), element)
      ensures keys == if r.Ok? then r.value else old(keys)
    {
      if element.tag == "tag" {
        if "k" !in element.attrib {
          return Raised(KeyError("k"));
        }
        var keyy := element.attrib["k"];
        if !MatchesLower(keyy) {
          if !MatchesLowerDoubleColon(keyy) {
            if !MatchesLowerColon(keyy) {
              if !HasProblemChar(keyy) {
                keys := keys[Other := keys[Other] + 1];
              } else {
                keys := keys[ProblemChars := keys[ProblemChars] + 1];
              }
            } else {
              keys := keys[LowerColon := keys[LowerColon] + 1];
            }
          } else {
            keys := keys[LowerDoubleColon := keys[LowerDoubleColon] + 1];
          }
        } else {
          keys := keys[Lower := keys[Lower] + 1];
        }
      }
      r := Ok(keys);
    }
  }
}
