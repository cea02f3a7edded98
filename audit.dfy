/** The audit accumulators the cleaning pass writes into while it
    normalises values: `street_types` (a `defaultdict(set)` from first word
    to the street names that start with it), `code_list` (reported postal
    codes) and `other_cities` (unexpected city names). */
module Audit {
  import opened Text
  import opened Outcomes
  import opened Normalisers

  /** The three accumulators as a value. */
  datatype AuditLog = AuditLog(streetTypes: map<string, set<string>>, codeList: set<string>, otherCities: set<string>)

  const EmptyLog := AuditLog(map[], {}, {})

  /** `street_types_list[street_type].add(street_name)` on a `defaultdict(set)`. */
  function AddStreet(types: map<string, set<string>>, streetType: string, name: string): (r: map<string, set<string>>)
    ensures r.Keys == types.Keys + {streetType}
    ensures name in r[streetType]
    ensures forall t :: t in types ==> types[t] <= r[t]
    ensures forall t :: t in r && t != streetType ==> r[t] == types[t]
    ensures forall t, n :: t in r && n in r[t] ==> (t in types && n in types[t]) || (t == streetType && n == name)
  {
    types[streetType := (if streetType in types then types[streetType] else {}) + {name}]
  }

  /** What `audit_street_type` records: a name whose first word is not a
      designator, under that first word. */
  function NoteStreet(log: AuditLog, name: string): (r: AuditLog)
    ensures r.codeList == log.codeList && r.otherCities == log.otherCities
    ensures Split(name) == [] || Split(name)[0] in StreetDesignators ==> r == log
    ensures Split(name) != [] && Split(name)[0] !in StreetDesignators ==>
      Split(name)[0] in r.streetTypes && name in r.streetTypes[Split(name)[0]]
  {
    var ts := Split(name);
    if ts == [] || ts[0] in StreetDesignators then log
    else log.(streetTypes := AddStreet(log.streetTypes, ts[0], name))
  }

  /** What `investigate_zip` records: a code longer than five characters or
      outside the département 34. */
  function NoteZip(log: AuditLog, zip: string): (r: AuditLog)
    ensures r.streetTypes == log.streetTypes && r.otherCities == log.otherCities
    ensures (|zip| > 5 || Prefix(zip, 2) != "34") ==> r.codeList == log.codeList + {zip}
    ensures !(|zip| > 5 || Prefix(zip, 2) != "34") ==> r == log
  {
    if |zip| > 5 || Prefix(zip, 2) != "34" then log.(codeList := log.codeList + {zip}) else log
  }

  /** What `investigate_zip` records as written: the value of `tag`, the
      module-level loop variable left over from an earlier pass over the
      sample (`stale`), instead of the code it was given. */
  function NoteZipAsWritten(log: AuditLog, zip: string, stale: string): (r: AuditLog)
    ensures r.streetTypes == log.streetTypes && r.otherCities == log.otherCities
    ensures (|zip| > 5 || Prefix(zip, 2) != "34") ==> r.codeList == log.codeList + {stale}
    ensures !(|zip| > 5 || Prefix(zip, 2) != "34") ==> r == log
  {
    if |zip| > 5 || Prefix(zip, 2) != "34" then log.(codeList := log.codeList + {stale}) else log
  }

  /** As written, a reported code is never recorded unless the stale tag
      happens to hold it; `NoteZip` records it. */
  lemma StaleTagMisreportsZip(log: AuditLog, zip: string, stale: string)
    requires zip !in log.codeList && stale != zip
    requires |zip| > 5 || Prefix(zip, 2) != "34"
    ensures zip !in NoteZipAsWritten(log, zip, stale).codeList
    ensures stale in NoteZipAsWritten(log, zip, stale).codeList
    ensures zip in NoteZip(log, zip).codeList
  {
  }

  /** What `update_name_city` records: a city name that is not expected. */
  function NoteCity(log: AuditLog, name: string): (r: AuditLog)
    ensures r.streetTypes == log.streetTypes && r.codeList == log.codeList
  {
    if name !in ExpectedCities then log.(otherCities := log.otherCities + {name}) else log
  }

  /** A postal code is reported exactly when the normaliser changes it,
      except for the sentinel `"error"` itself, which is rejected and so
      reported but comes back unchanged. */
  lemma ZipReportedIffChanged(log: AuditLog, zip: string)
    requires zip !in log.codeList
    ensures zip in NoteZip(log, zip).codeList <==> InvestigateZip(zip) != zip || zip == Rejected
  {
    if |zip| > 5 && Prefix(zip, 2) == "34" {
      assert |InvestigateZip(zip)| == 5;
    }
    if zip == Rejected {
      assert Prefix(Rejected, 2) == "er";
    }
  }

  /** A city is reported exactly when it is not an expected name; the
      expected names leave the log untouched. */
  lemma CityReportedIffUnexpected(log: AuditLog, name: string)
    ensures name in ExpectedCities ==> NoteCity(log, name) == log
    ensures name !in ExpectedCities ==> NoteCity(log, name).otherCities == log.otherCities + {name}
  {
  }

  /** The accumulators as module-level state, shared by every call. */
  class Auditor {
    var streetTypes: map<string, set<string>>
    var codeList: set<string>
    var otherCities: set<string>

    function Log(): AuditLog
      reads this
    {
      AuditLog(streetTypes, codeList, otherCities)
    }

    constructor ()
      ensures Log() == EmptyLog
    {
      streetTypes, codeList, otherCities := map[], {}, {};
    }

    /** `audit_street_type(street_types, street_name)`. */
    method AuditStreetType(streetName: string) returns (r: Outcome<string>)
      modifies this
      ensures r == NormalisedStreet(streetName)
      ensures Log() == NoteStreet(old(Log()), streetName)
    {
      var words := Split(streetName);
      if words == [] {
        return Raised(IndexError);
      }
      var streetType := words[0];
      var updated;
      if streetType !in StreetDesignators {
        streetTypes := AddStreet(streetTypes, streetType, streetName);
        updated := UpdateName(streetName, StreetDesignators, StreetAbbreviations);
      } else {
        updated := streetName;
      }
      return Ok(updated);
    }

    /** `investigate_zip(zip_value, code_list)`, reporting the value it is
        given. */
    method InvestigateZip(zipValue: string) returns (newCode: string)
      modifies this
      ensures newCode == Normalisers.InvestigateZip(zipValue)
      ensures Log() == NoteZip(old(Log()), zipValue)
    {
      newCode := zipValue;
      if |zipValue| > 5 {
        codeList := codeList + {zipValue};
        newCode := newCode[..5];
      }
      if Prefix(zipValue, 2) != "34" {
        newCode := Rejected;
        codeList := codeList + {zipValue};
      }
    }

    /** `update_name_city(name, other_cities)`. */
    method UpdateNameCity(name: string) returns (updatedNames: string)
      modifies this
      ensures updatedNames == Normalisers.UpdateNameCity(name)
      ensures Log() == NoteCity(old(Log()), name)
    {
      updatedNames := name;
      if name !in ExpectedCities {
        otherCities := otherCities + {name};
        if name in CityCorrections {
          updatedNames := CityCorrections[name];
        }
      }
    }
  }
}
