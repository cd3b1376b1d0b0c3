/**
 * Post-processing of OCR text: name normalisation, the alias and unit
 * tables loaded from the aliases file, unit validation, the empty report
 * skeleton and the value-and-unit reader that looks just after a keyword.
 */
module OcrService {
  import opened Wrappers
  import Text
  import opened Dicts
  import opened LabConstants

  // ---- normalize ----

  /** `normalize`: nothing for a missing or empty string, else lower-cased letters and digits only. */
  function Normalize(s: Option<string>): (r: string)
    ensures s.None? || s == Some("") ==> r == ""
    ensures forall i :: 0 <= i < |r| ==> Text.IsKeyChar(r[i])
  {
    if s.None? || s.value == "" then "" else Text.LowerAlnum(s.value)
  }

  lemma NormalizeIdempotent(s: Option<string>)
    ensures Normalize(Some(Normalize(s))) == Normalize(s)
  {
    Text.LowerAlnumKeeps(Normalize(s));
  }

  // ---- load_aliases_map_and_units ----

  /** One entry of `labTests`; absent lists are empty. */
  datatype LabTest = LabTest(officialName: Option<string>, aliases: seq<string>, units: seq<string>)

  /** The aliases file: absent, unreadable as JSON, or its `labTests` list. */
  datatype AliasFile = Missing | Unreadable | Parsed(labTests: seq<LabTest>)

  /** An entry the loader uses: one with a non-empty official name. */
  predicate Usable(t: LabTest)
  {
    t.officialName.Some? && t.officialName.value != ""
  }

  /** The keys an entry writes, in order: its official name, then each alias, normalised. */
  function NamesOf(t: LabTest): seq<Option<string>>
  {
    [t.officialName] + seq(|t.aliases|, i requires 0 <= i < |t.aliases| => Some(t.aliases[i]))
  }

  /** The normalised forms of some names. */
  function NormalizedSet(names: seq<Option<string>>): set<string>
  {
    set i | 0 <= i < |names| :: Normalize(names[i])
  }

  lemma NormalizedSetLast(names: seq<Option<string>>)
    requires names != []
    ensures NormalizedSet(names) == NormalizedSet(names[..|names| - 1]) + {Normalize(names[|names| - 1])}
  {
    var prefix := names[..|names| - 1];
    forall k | k in NormalizedSet(names) ensures k in NormalizedSet(prefix) + {Normalize(names[|names| - 1])} {
      var i :| 0 <= i < |names| && Normalize(names[i]) == k;
      if i < |prefix| {
        assert prefix[i] == names[i];
      }
    }
    forall k | k in NormalizedSet(prefix) ensures k in NormalizedSet(names) {
      var i :| 0 <= i < |prefix| && Normalize(prefix[i]) == k;
      assert prefix[i] == names[i];
    }
  }

  /** An entry that writes the key `k` into the alias map. */
  predicate Writes(t: LabTest, k: string)
  {
    Usable(t) && k in NormalizedSet(NamesOf(t))
  }

  /** Each of `names`, normalised, put into the map with `canonical` as its value. */
  function PutNames(m: seq<(string, string)>, names: seq<Option<string>>, canonical: string): seq<(string, string)>
  {
    if names == [] then m
    else Put(PutNames(m, names[..|names| - 1], canonical), Normalize(names[|names| - 1]), canonical)
  }

  lemma {:induction false} PutNamesLookup(m: seq<(string, string)>, names: seq<Option<string>>, canonical: string, k: string)
    ensures Lookup(PutNames(m, names, canonical), k) == if k in NormalizedSet(names) then Some(canonical) else Lookup(m, k)
  {
    if names != [] {
      var prefix := names[..|names| - 1];
      var last := names[|names| - 1];
      PutNamesLookup(m, prefix, canonical, k);
      PutSpec(PutNames(m, prefix, canonical), Normalize(last), canonical);
      NormalizedSetLast(names);
    }
  }

  lemma {:induction false} PutNamesKeepsUniqueKeys(m: seq<(string, string)>, names: seq<Option<string>>, canonical: string)
    requires UniqueKeys(m)
    ensures UniqueKeys(PutNames(m, names, canonical))
  {
    if names != [] {
      PutNamesKeepsUniqueKeys(m, names[..|names| - 1], canonical);
      PutKeepsUniqueKeys(PutNames(m, names[..|names| - 1], canonical), Normalize(names[|names| - 1]), canonical);
    }
  }

  /** The alias map after the loader has gone through `tests`. */
  function AliasesAfter(tests: seq<LabTest>): seq<(string, string)>
  {
    if tests == [] then []
    else
      var t := tests[|tests| - 1];
      var m := AliasesAfter(tests[..|tests| - 1]);
      if Usable(t) then PutNames(m, NamesOf(t), t.officialName.value) else m
  }

  /** `[u.strip() for u in units if u.strip()]`. */
  function CleanUnits(units: seq<string>): seq<string>
  {
    NonBlank(StripEach(units))
  }

  function StripEach(units: seq<string>): (r: seq<string>)
    ensures |r| == |units| && forall j :: 0 <= j < |units| ==> r[j] == Text.Strip(units[j])
  {
    seq(|units|, j requires 0 <= j < |units| => Text.Strip(units[j]))
  }

  /** The non-empty strings, in order. */
  function NonBlank(ws: seq<string>): seq<string>
  {
    if ws == [] then []
    else
      var rest := NonBlank(ws[..|ws| - 1]);
      if ws[|ws| - 1] != "" then rest + [ws[|ws| - 1]] else rest
  }

  lemma {:induction false} NonBlankSound(ws: seq<string>)
    ensures forall i :: 0 <= i < |NonBlank(ws)| ==> NonBlank(ws)[i] != "" && NonBlank(ws)[i] in ws
    ensures forall j :: 0 <= j < |ws| && ws[j] != "" ==> ws[j] in NonBlank(ws)
  {
    if ws != [] {
      var prefix := ws[..|ws| - 1];
      var rest := NonBlank(prefix);
      var w := ws[|ws| - 1];
      var r := NonBlank(ws);
      NonBlankSound(prefix);
      assert r == if w != "" then rest + [w] else rest;
      forall i | 0 <= i < |r| ensures r[i] != "" && r[i] in ws {
        if i < |rest| {
          assert r[i] == rest[i];
          var k :| 0 <= k < |prefix| && prefix[k] == rest[i];
          assert ws[k] == prefix[k];
        } else {
          assert r[i] == ws[|ws| - 1];
        }
      }
      forall j | 0 <= j < |ws| && ws[j] != "" ensures ws[j] in r {
        if j < |prefix| {
          assert prefix[j] == ws[j];
          var k :| 0 <= k < |rest| && rest[k] == ws[j];
          assert r[k] == rest[k];
        } else {
          assert r[|r| - 1] == w;
        }
      }
    }
  }

  function StrippedAll(units: seq<string>): set<string>
  {
    set j | 0 <= j < |units| :: Text.Strip(units[j])
  }

  /** The cleaned list holds only non-empty stripped units, and every unit not blank once stripped. */
  lemma CleanUnitsSound(units: seq<string>)
    ensures forall i :: 0 <= i < |CleanUnits(units)| ==>
              CleanUnits(units)[i] != "" && CleanUnits(units)[i] in StrippedAll(units)
    ensures forall j :: 0 <= j < |units| && Text.Strip(units[j]) != "" ==> Text.Strip(units[j]) in CleanUnits(units)
  {
    CleanUnitsStripped(units);
    CleanUnitsComplete(units);
  }

  lemma CleanUnitsStripped(units: seq<string>)
    ensures forall i :: 0 <= i < |CleanUnits(units)| ==>
              CleanUnits(units)[i] != "" && CleanUnits(units)[i] in StrippedAll(units)
  {
    var ws := StripEach(units);
    var cu := NonBlank(ws);
    assert CleanUnits(units) == cu;
    NonBlankSound(ws);
    forall i | 0 <= i < |cu| ensures cu[i] in StrippedAll(units) {
      var k :| 0 <= k < |ws| && ws[k] == cu[i];
      StrippedIn(units, k);
    }
  }

  lemma CleanUnitsComplete(units: seq<string>)
    ensures forall j :: 0 <= j < |units| && Text.Strip(units[j]) != "" ==> Text.Strip(units[j]) in CleanUnits(units)
  {
    var ws := StripEach(units);
    NonBlankSound(ws);
    forall j | 0 <= j < |units| && Text.Strip(units[j]) != "" ensures Text.Strip(units[j]) in NonBlank(ws) {
      assert ws[j] == Text.Strip(units[j]);
    }
  }

  lemma StrippedIn(units: seq<string>, k: nat)
    requires k < |units|
    ensures Text.Strip(units[k]) in StrippedAll(units)
  {
  }

  /** The unit lists after the loader has gone through `tests`. */
  function UnitsAfter(tests: seq<LabTest>): map<string, seq<string>>
  {
    if tests == [] then map[]
    else
      var t := tests[|tests| - 1];
      var m := UnitsAfter(tests[..|tests| - 1]);
      if Usable(t) then m[t.officialName.value := CleanUnits(t.units)] else m
  }

  /** The alias map is a dictionary: no key twice, so its length is the number of aliases loaded. */
  lemma {:induction false} AliasesAfterUniqueKeys(tests: seq<LabTest>)
    ensures UniqueKeys(AliasesAfter(tests))
  {
    if tests != [] {
      var t := tests[|tests| - 1];
      AliasesAfterUniqueKeys(tests[..|tests| - 1]);
      if Usable(t) {
        PutNamesKeepsUniqueKeys(AliasesAfter(tests[..|tests| - 1]), NamesOf(t), t.officialName.value);
      }
    }
  }

  /** The index of the last entry that writes `k`, if any. */
  function LastWriter(tests: seq<LabTest>, k: string): (r: Option<nat>)
    ensures r.Some? ==> r.value < |tests| && Writes(tests[r.value], k)
    ensures r.Some? ==> forall j :: r.value < j < |tests| ==> !Writes(tests[j], k)
    ensures r.None? ==> forall j :: 0 <= j < |tests| ==> !Writes(tests[j], k)
  {
    if tests == [] then None
    else if Writes(tests[|tests| - 1], k) then Some(|tests| - 1)
    else
      var prefix := tests[..|tests| - 1];
      var r := LastWriter(prefix, k);
      assert forall j :: 0 <= j < |prefix| ==> prefix[j] == tests[j];
      r
  }

  /**
   * A key is in the alias map exactly when some usable entry writes it, and
   * its canonical name is the official name of the last entry that does.
   */
  lemma {:induction false} AliasesAfterLookup(tests: seq<LabTest>, k: string)
    ensures Lookup(AliasesAfter(tests), k) ==
              match LastWriter(tests, k)
              case None => None
              case Some(i) => Some(tests[i].officialName.value)
  {
    if tests != [] {
      var prefix := tests[..|tests| - 1];
      var t := tests[|tests| - 1];
      AliasesAfterLookup(prefix, k);
      if Usable(t) {
        PutNamesLookup(AliasesAfter(prefix), NamesOf(t), t.officialName.value, k);
      }
      if !Writes(t, k) {
        match LastWriter(prefix, k)
        case None =>
        case Some(i) => assert prefix[i] == tests[i];
      }
    }
  }

  /** The last usable entry that names a test decides its unit list. */
  function LastNaming(tests: seq<LabTest>, canonical: string): (r: Option<nat>)
    ensures r.Some? ==> r.value < |tests| && Usable(tests[r.value]) && tests[r.value].officialName.value == canonical
    ensures r.Some? ==> forall j :: r.value < j < |tests| ==> !(Usable(tests[j]) && tests[j].officialName.value == canonical)
    ensures r.None? ==> forall j :: 0 <= j < |tests| ==> !(Usable(tests[j]) && tests[j].officialName.value == canonical)
  {
    if tests == [] then None
    else if Usable(tests[|tests| - 1]) && tests[|tests| - 1].officialName.value == canonical then Some(|tests| - 1)
    else
      var prefix := tests[..|tests| - 1];
      var r := LastNaming(prefix, canonical);
      assert forall j :: 0 <= j < |prefix| ==> prefix[j] == tests[j];
      r
  }

  /** An official name has a unit list exactly when a usable entry names it; the last such entry's list wins. */
  lemma {:induction false} UnitsAfterLookup(tests: seq<LabTest>, canonical: string)
    ensures canonical in UnitsAfter(tests) <==> LastNaming(tests, canonical).Some?
    ensures canonical in UnitsAfter(tests) ==>
              UnitsAfter(tests)[canonical] == CleanUnits(tests[LastNaming(tests, canonical).value].units)
  {
    if tests != [] {
      var prefix := tests[..|tests| - 1];
      UnitsAfterLookup(prefix, canonical);
      var t := tests[|tests| - 1];
      if !(Usable(t) && t.officialName.value == canonical) {
        match LastNaming(prefix, canonical)
        case None =>
        case Some(i) => assert prefix[i] == tests[i];
      }
    }
  }

  lemma AliasesStep(tests: seq<LabTest>, i: nat)
    requires i < |tests|
    ensures AliasesAfter(tests[..i + 1]) ==
              var t := tests[i];
              if Usable(t) then PutNames(AliasesAfter(tests[..i]), NamesOf(t), t.officialName.value) else AliasesAfter(tests[..i])
    ensures UnitsAfter(tests[..i + 1]) ==
              var t := tests[i];
              if Usable(t) then UnitsAfter(tests[..i])[t.officialName.value := CleanUnits(t.units)] else UnitsAfter(tests[..i])
  {
    assert tests[..i + 1][..i] == tests[..i];
  }

  lemma PutNamesStep(m: seq<(string, string)>, names: seq<Option<string>>, canonical: string, j: nat)
    requires j < |names|
    ensures PutNames(m, names[..j + 1], canonical) == Put(PutNames(m, names[..j], canonical), Normalize(names[j]), canonical)
  {
    assert names[..j + 1][..j] == names[..j];
  }

  /**
   * `load_aliases_map_and_units`: empty tables for a missing or unreadable
   * file; otherwise every usable entry writes its names into the alias map
   * and its cleaned units under its official name.
   */
  method LoadAliasesMapAndUnits(file: AliasFile) returns (aliasMap: seq<(string, string)>, canonicalUnits: map<string, seq<string>>)
    ensures file.Parsed? ==> aliasMap == AliasesAfter(file.labTests) && canonicalUnits == UnitsAfter(file.labTests)
    ensures !file.Parsed? ==> aliasMap == [] && canonicalUnits == map[]
  {
    aliasMap := [];
    canonicalUnits := map[];
    if !file.Parsed? {
      return;
    }
    var tests := file.labTests;
    for i := 0 to |tests|
      invariant aliasMap == AliasesAfter(tests[..i])
      invariant canonicalUnits == UnitsAfter(tests[..i])
    {
      AliasesStep(tests, i);
      var item := tests[i];
      var canonical := item.officialName;
      if canonical.None? || canonical.value == "" {
        continue;
      }
      aliasMap := WriteNames(aliasMap, NamesOf(item), canonical.value);
      canonicalUnits := canonicalUnits[canonical.value := CleanUnits(item.units)];
    }
    assert tests[..|tests|] == tests;
  }

  /** The inner loop of the loader: each name, normalised, mapped to `canonical`. */
  method WriteNames(m: seq<(string, string)>, names: seq<Option<string>>, canonical: string) returns (r: seq<(string, string)>)
    ensures r == PutNames(m, names, canonical)
  {
    r := m;
    assert names[..0] == [];
    for j := 0 to |names|
      invariant r == PutNames(m, names[..j], canonical)
    {
      PutNamesStep(m, names, canonical, j);
      r := Put(r, Normalize(names[j]), canonical);
    }
    assert names[..|names|] == names;
  }

  // ---- validate_or_fill_unit ----

  /** A character `normalize_unit` keeps: ASCII lower-case letters and digits, `%`, the micro sign and Greek mu. */
  predicate IsUnitKeyChar(c: char)
  {
    Text.IsAsciiLower(c) || Text.IsDigit(c) || c == '%' || c == '\U{00B5}' || c == '\U{03BC}'
  }

  function KeepUnitKeyChars(s: string): (r: string)
    ensures |r| <= |s|
    ensures forall i :: 0 <= i < |r| ==> IsUnitKeyChar(r[i])
  {
    if s == [] then [] else (if IsUnitKeyChar(s[0]) then [s[0]] else []) + KeepUnitKeyChars(s[1..])
  }

  /** `normalize_unit`: lower-cased, keeping only the unit key characters. */
  function NormalizeUnit(u: string): (r: string)
    ensures forall i :: 0 <= i < |r| ==> IsUnitKeyChar(r[i])
  {
    KeepUnitKeyChars(Text.Lower(u))
  }

  /** The first allowed unit whose normalised form is `norm`. */
  function FirstMatchingUnit(allowed: seq<string>, norm: string): (r: Option<nat>)
    ensures r.Some? ==> r.value < |allowed| && NormalizeUnit(allowed[r.value]) == norm
    ensures r.Some? ==> forall j :: 0 <= j < r.value ==> NormalizeUnit(allowed[j]) != norm
    ensures r.None? ==> forall j :: 0 <= j < |allowed| ==> NormalizeUnit(allowed[j]) != norm
  {
    if allowed == [] then None
    else if NormalizeUnit(allowed[0]) == norm then Some(0)
    else match FirstMatchingUnit(allowed[1..], norm)
      case Some(j) => Some(j + 1)
      case None => None
  }

  /** What `validate_or_fill_unit` returns for `canonical` and the unit found in the text. */
  function UnitVerdict(units: map<string, seq<string>>, canonical: string, detected: Option<string>): Option<string>
  {
    var allowed := if canonical in units then units[canonical] else [];
    if allowed == [] then detected
    else if detected.Some? && detected.value != "" then
      match FirstMatchingUnit(allowed, NormalizeUnit(detected.value))
      case Some(j) => Some(allowed[j])
      case None => None
    else if |allowed| == 1 then Some(allowed[0])
    else None
  }

  /**
   * The found unit passes unchanged when the marker has no allowed units;
   * a found unit becomes the first allowed unit with the same normalised
   * form, or nothing; a missing one is filled in only when exactly one unit
   * is allowed.
   */
  lemma UnitVerdictCases(units: map<string, seq<string>>, canonical: string, detected: Option<string>)
    ensures var r := UnitVerdict(units, canonical, detected);
            var allowed := if canonical in units then units[canonical] else [];
            && (allowed == [] ==> r == detected)
            && (allowed != [] && detected.Some? && detected.value != "" ==>
                  (r.Some? <==> exists j :: 0 <= j < |allowed| && NormalizeUnit(allowed[j]) == NormalizeUnit(detected.value))
                  && (r.Some? ==> exists j :: (0 <= j < |allowed| && r.value == allowed[j]
                        && NormalizeUnit(allowed[j]) == NormalizeUnit(detected.value)
                        && forall h :: 0 <= h < j ==> NormalizeUnit(allowed[h]) != NormalizeUnit(detected.value))))
            && (allowed != [] && (detected.None? || detected.value == "") ==>
                  r == if |allowed| == 1 then Some(allowed[0]) else None)
  {
  }

  /** `validate_or_fill_unit`, with its loop and early return. */
  method ValidateOrFillUnit(units: map<string, seq<string>>, canonical: string, detected: Option<string>) returns (r: Option<string>)
    ensures r == UnitVerdict(units, canonical, detected)
  {
    var allowed := if canonical in units then units[canonical] else [];
    if allowed == [] {
      return detected;
    }
    if detected.Some? && detected.value != "" {
      var normDetected := NormalizeUnit(detected.value);
      for j := 0 to |allowed|
        invariant forall h :: 0 <= h < j ==> NormalizeUnit(allowed[h]) != normDetected
      {
        if NormalizeUnit(allowed[j]) == normDetected {
          assert FirstMatchingUnit(allowed, normDetected) == Some(j);
          return Some(allowed[j]);
        }
      }
      return None;
    }
    if |allowed| == 1 {
      return Some(allowed[0]);
    }
    return None;
  }

  // ---- build_empty_lab_reports ----

  /** A marker's entry in the lab reports: `{"value": ..., "unit": ...}`. */
  datatype Reading = Reading(value: Option<real>, unit: Option<string>)

  const NoReading := Reading(None, None)

  /** `{m: {"value": None, "unit": None} for m in markers}`. */
  function EmptyPanel(markers: seq<string>): seq<(string, Reading)>
  {
    FromPairs(seq(|markers|, i requires 0 <= i < |markers| => (markers[i], NoReading)))
  }

  /** The skeleton after the loop has gone through `panels`. */
  function EmptyLabReports(panels: seq<(string, seq<string>)>): seq<(string, seq<(string, Reading)>)>
  {
    if panels == [] then []
    else
      var last := panels[|panels| - 1];
      Put(EmptyLabReports(panels[..|panels| - 1]), last.0, EmptyPanel(last.1))
  }

  /** A list of distinct markers gives a panel with exactly those markers, in order, all without a reading. */
  lemma EmptyPanelShape(markers: seq<string>)
    requires Unique(markers)
    ensures |EmptyPanel(markers)| == |markers|
    ensures forall i :: 0 <= i < |markers| ==> EmptyPanel(markers)[i] == (markers[i], NoReading)
  {
    var pairs := seq(|markers|, i requires 0 <= i < |markers| => (markers[i], NoReading));
    FromPairsOfUniqueKeys(pairs);
  }

  /** A table with distinct panel names gives one skeleton panel per entry, in order. */
  lemma {:induction false} EmptyLabReportsShape(panels: seq<(string, seq<string>)>)
    requires UniqueKeys(panels)
    ensures |EmptyLabReports(panels)| == |panels|
    ensures forall i :: 0 <= i < |panels| ==> EmptyLabReports(panels)[i] == (panels[i].0, EmptyPanel(panels[i].1))
  {
    if panels != [] {
      var prefix := panels[..|panels| - 1];
      var last := panels[|panels| - 1];
      UniqueKeysPrefix(panels);
      EmptyLabReportsShape(prefix);
      var m := EmptyLabReports(prefix);
      forall i | 0 <= i < |m| ensures m[i].0 != last.0 {
        assert m[i].0 == prefix[i].0 == panels[i].0;
      }
      PutNewKey(m, last.0, EmptyPanel(last.1));
      SnocShape(panels, m, EmptyLabReports(panels), EmptyPanel);
    }
  }

  /**
   * A table of distinct panels with distinct markers gives a skeleton with
   * its panels in order, each holding its markers in order, every one without
   * a value or a unit.
   */
  lemma SkeletonShape(panels: seq<(string, seq<string>)>)
    requires UniqueKeys(panels) && UniqueMarkers(panels)
    ensures KeysOf(EmptyLabReports(panels)) == KeysOf(panels)
    ensures forall i :: 0 <= i < |panels| ==>
              KeysOf(EmptyLabReports(panels)[i].1) == panels[i].1
              && forall j :: 0 <= j < |panels[i].1| ==> EmptyLabReports(panels)[i].1[j].1 == NoReading
  {
    EmptyLabReportsShape(panels);
    var r := EmptyLabReports(panels);
    KeysOfIs(r, KeysOf(panels));
    forall i | 0 <= i < |panels|
      ensures KeysOf(r[i].1) == panels[i].1
      ensures forall j :: 0 <= j < |panels[i].1| ==> r[i].1[j].1 == NoReading
    {
      var ms := panels[i].1;
      assert Unique(ms);
      EmptyPanelShape(ms);
      assert r[i].1 == EmptyPanel(ms);
      KeysOfIs(EmptyPanel(ms), ms);
    }
  }

  /** `build_empty_lab_reports` holds exactly the `CANONICAL_PANELS` panels and markers, each without a reading. */
  lemma CanonicalSkeleton()
    ensures KeysOf(EmptyLabReports(CanonicalPanels)) == KeysOf(CanonicalPanels)
    ensures forall i :: 0 <= i < |CanonicalPanels| ==>
              KeysOf(EmptyLabReports(CanonicalPanels)[i].1) == CanonicalPanels[i].1
              && forall j :: 0 <= j < |CanonicalPanels[i].1| ==> EmptyLabReports(CanonicalPanels)[i].1[j].1 == NoReading
  {
    CanonicalPanelsWellFormed();
    SkeletonShape(CanonicalPanels);
  }

  lemma EmptyLabReportsStep(panels: seq<(string, seq<string>)>, i: nat)
    requires i < |panels|
    ensures EmptyLabReports(panels[..i + 1]) == Put(EmptyLabReports(panels[..i]), panels[i].0, EmptyPanel(panels[i].1))
  {
    assert panels[..i + 1][..i] == panels[..i];
  }

  /** `build_empty_lab_reports`: one blank panel per entry of `CANONICAL_PANELS`. */
  method BuildEmptyLabReports() returns (data: seq<(string, seq<(string, Reading)>)>)
    ensures data == EmptyLabReports(CanonicalPanels)
  {
    data := [];
    var panels := CanonicalPanels;
    for i := 0 to |panels|
      invariant data == EmptyLabReports(panels[..i])
    {
      EmptyLabReportsStep(panels, i);
      data := Put(data, panels[i].0, EmptyPanel(panels[i].1));
    }
    assert panels[..|panels|] == panels;
  }

  // ---- find_value_unit_near ----

  /** The end of the run of digits that starts at `j`. */
  function DigitRunEnd(s: string, j: nat): (d: nat)
    requires j <= |s|
    decreases |s| - j
    ensures j <= d <= |s|
    ensures forall k :: j <= k < d ==> Text.IsDigit(s[k])
    ensures d == |s| || !Text.IsDigit(s[d])
  {
    if j < |s| && Text.IsDigit(s[j]) then DigitRunEnd(s, j + 1) else j
  }

  predicate IsSign(c: char) { c == '-' || c == '+' }

  /** A numeral without its sign. */
  function Unsigned(t: string): string
  {
    if t != [] && IsSign(t[0]) then t[1..] else t
  }

  /** Digits, or digits, a point and at least one more digit. */
  predicate IsUnsignedNumeral(w: string)
  {
    match Text.IndexOfChar(w, '.')
    case None => w != [] && Text.AllDigits(w)
    case Some(k) => Text.AllDigits(w[..k]) && k + 1 < |w| && Text.AllDigits(w[k + 1..])
  }

  /** The text `[-+]?\d*\.?\d+` matches in full. */
  predicate IsNumeral(t: string)
  {
    IsUnsignedNumeral(Unsigned(t))
  }

  /** Where the digits of a match starting at `i` begin: after the sign, if any. */
  function SignEnd(s: string, i: nat): (j: nat)
    requires i <= |s|
    ensures i <= j <= |s|
  {
    if i < |s| && IsSign(s[i]) then i + 1 else i
  }

  /**
   * Where the match of `[-+]?\d*\.?\d+` that the regular-expression
   * engine tries at `i` ends, if it succeeds there: the sign, the greedy
   * digits, and the fraction only when a digit follows the point.
   */
  function NumberEnd(s: string, i: nat): Option<nat>
    requires i <= |s|
  {
    var j := SignEnd(s, i);
    var d := DigitRunEnd(s, j);
    if d + 1 < |s| && s[d] == '.' && Text.IsDigit(s[d + 1]) then Some(DigitRunEnd(s, d + 1))
    else if d > j then Some(d)
    else None
  }

  lemma UnsignedOfSlice(s: string, i: nat, e: nat)
    requires i < e <= |s|
    ensures SignEnd(s, i) <= e && Unsigned(s[i..e]) == s[SignEnd(s, i)..e]
  {
    assert s[i..e][0] == s[i];
  }

  lemma AllDigitsSlice(s: string, a: nat, b: nat)
    requires a <= b <= |s|
    ensures Text.AllDigits(s[a..b]) <==> forall k :: a <= k < b ==> Text.IsDigit(s[k])
  {
    assert forall k :: 0 <= k < b - a ==> s[a..b][k] == s[a + k];
  }

  lemma TakeOfSlice(s: string, a: nat, b: nat, k: nat)
    requires a <= b <= |s| && k <= b - a
    ensures s[a..b][..k] == s[a..a + k]
  {
  }

  lemma DropOfSlice(s: string, a: nat, b: nat, k: nat)
    requires a <= b <= |s| && k <= b - a
    ensures s[a..b][k..] == s[a + k..b]
  {
  }

  /** The engine's match at `i`, when there is one, is a numeral. */
  lemma NumberEndIsNumeral(s: string, i: nat)
    requires i <= |s| && NumberEnd(s, i).Some?
    ensures i < NumberEnd(s, i).value <= |s|
    ensures IsNumeral(s[i..NumberEnd(s, i).value])
  {
    var e := NumberEnd(s, i).value;
    var j := SignEnd(s, i);
    var d := DigitRunEnd(s, j);
    UnsignedOfSlice(s, i, e);
    if d + 1 < |s| && s[d] == '.' && Text.IsDigit(s[d + 1]) {
      FractionIsNumeral(s, j, d, e);
    } else {
      DigitsAreNumeral(s, j, e);
    }
  }

  lemma DigitsAreNumeral(s: string, j: nat, e: nat)
    requires j < e <= |s| && forall k :: j <= k < e ==> Text.IsDigit(s[k])
    ensures IsUnsignedNumeral(s[j..e])
  {
    var w := s[j..e];
    AllDigitsSlice(s, j, e);
    assert '.' !in w by {
      forall k | 0 <= k < |w| ensures w[k] != '.' {
        assert Text.IsDigit(w[k]);
      }
    }
  }

  lemma FractionIsNumeral(s: string, j: nat, d: nat, e: nat)
    requires j <= d && d + 1 < e <= |s| && s[d] == '.'
    requires forall k :: j <= k < d ==> Text.IsDigit(s[k])
    requires forall k :: d + 1 <= k < e ==> Text.IsDigit(s[k])
    ensures IsUnsignedNumeral(s[j..e])
  {
    var w := s[j..e];
    var k := d - j;
    TakeOfSlice(s, j, e, k);
    DropOfSlice(s, j, e, k + 1);
    AllDigitsSlice(s, j, d);
    AllDigitsSlice(s, d + 1, e);
    assert w[k] == '.';
    assert '.' !in w[..k] by {
      forall q | 0 <= q < k ensures w[..k][q] != '.' {
        assert Text.IsDigit(w[..k][q]);
      }
    }
    Text.IndexOfCharAt(w, '.', k);
  }

  /** A run of digits starting at `j` ends no later than the digit run there. */
  lemma DigitsWithinRun(s: string, j: nat, e: nat)
    requires j <= e <= |s| && Text.AllDigits(s[j..e])
    ensures e <= DigitRunEnd(s, j)
  {
    AllDigitsSlice(s, j, e);
  }

  /** A numeral starting at `i` ends no later than the engine's match there, which therefore succeeds. */
  lemma NumberEndIsLongest(s: string, i: nat, e': nat)
    requires i <= e' <= |s| && IsNumeral(s[i..e'])
    ensures NumberEnd(s, i).Some? && e' <= NumberEnd(s, i).value
  {
    assert s[i..e'] != [];
    UnsignedOfSlice(s, i, e');
    var j := SignEnd(s, i);
    match Text.IndexOfChar(s[j..e'], '.')
    case None =>
      DigitsWithinRun(s, j, e');
    case Some(k) =>
      FractionWithinRun(s, j, e', k);
  }

  lemma FractionWithinRun(s: string, j: nat, e': nat, k: nat)
    requires j <= e' <= |s|
    requires Text.IndexOfChar(s[j..e'], '.') == Some(k) && IsUnsignedNumeral(s[j..e'])
    ensures DigitRunEnd(s, j) == j + k && j + k + 1 < |s| && s[j + k] == '.' && Text.IsDigit(s[j + k + 1])
    ensures e' <= DigitRunEnd(s, j + k + 1)
  {
    var q := j + k;
    assert s[q] == s[j..e'][k];
    TakeOfSlice(s, j, e', k);
    DropOfSlice(s, j, e', k + 1);
    DigitsWithinRun(s, j, q);
    AllDigitsSlice(s, q + 1, e');
    DigitsWithinRun(s, q + 1, e');
  }

  /** The leftmost start at or after `from` where the engine finds a numeral, with the match's end. */
  function FirstNumber(s: string, from: nat): (r: Option<(nat, nat)>)
    requires from <= |s|
    decreases |s| - from
    ensures r.Some? ==> from <= r.value.0 <= |s| && NumberEnd(s, r.value.0) == Some(r.value.1)
    ensures r.Some? ==> forall i :: from <= i < r.value.0 ==> NumberEnd(s, i).None?
    ensures r.None? ==> forall i :: from <= i <= |s| ==> NumberEnd(s, i).None?
  {
    match NumberEnd(s, from)
    case Some(e) => Some((from, e))
    case None => if from == |s| then None else FirstNumber(s, from + 1)
  }

  /** A numeral always converts: the `ValueError` branch cannot be taken. */
  lemma NumeralParses(t: string)
    requires IsNumeral(t)
    ensures Text.ParseDecimal(t).Some?
  {
    var w := Unsigned(t);
    if w != [] {
      match Text.IndexOfChar(w, '.')
      case None => assert Text.IsDigit(w[0]);
      case Some(k) =>
        if k > 0 {
          assert Text.IsDigit(w[..k][0]);
        }
    }
    if t != [] && IsSign(t[0]) {
      assert Text.ParseUnsigned(t[1..]).Some?;
    } else {
      assert Text.ParseUnsigned(t).Some?;
    }
  }

  /** The characters of `[a-zA-Z%µμ×\d\^\-/]`. */
  predicate IsUnitChar(c: char)
  {
    Text.IsAsciiLower(c) || Text.IsAsciiUpper(c) || Text.IsDigit(c)
    || c == '%' || c == '\U{00B5}' || c == '\U{03BC}' || c == '\U{00D7}' || c == '^' || c == '-' || c == '/'
  }

  function UnitRunEnd(s: string, j: nat): (d: nat)
    requires j <= |s|
    decreases |s| - j
    ensures j <= d <= |s|
    ensures forall k :: j <= k < d ==> IsUnitChar(s[k])
    ensures d == |s| || !IsUnitChar(s[d])
  {
    if j < |s| && IsUnitChar(s[j]) then UnitRunEnd(s, j + 1) else j
  }

  function FirstUnitChar(s: string, from: nat): (r: Option<nat>)
    requires from <= |s|
    decreases |s| - from
    ensures r.Some? ==> from <= r.value < |s| && IsUnitChar(s[r.value])
    ensures r.Some? ==> forall k :: from <= k < r.value ==> !IsUnitChar(s[k])
    ensures r.None? ==> forall k :: from <= k < |s| ==> !IsUnitChar(s[k])
  {
    if from == |s| then None else if IsUnitChar(s[from]) then Some(from) else FirstUnitChar(s, from + 1)
  }

  /**
   * `re.search(UNIT_PATTERN, s)`, stripped: the first maximal run of unit
   * characters, which holds no white space, so stripping keeps it whole.
   */
  function UnitIn(s: string): (r: Option<string>)
    ensures r.Some? ==> r.value != [] && forall k :: 0 <= k < |r.value| ==> IsUnitChar(r.value[k])
    ensures r.None? <==> forall k :: 0 <= k < |s| ==> !IsUnitChar(s[k])
  {
    match FirstUnitChar(s, 0)
    case None => None
    case Some(i) => 
      var u := s[i..UnitRunEnd(s, i)];
      StripKeepsUnit(u);
      Some(Text.Strip(u))
  }

  lemma StripKeepsUnit(u: string)
    requires forall k :: 0 <= k < |u| ==> IsUnitChar(u[k])
    ensures Text.Strip(u) == u
  {
    assert forall k :: 0 <= k < |u| ==> !Text.IsSpace(u[k]);
  }

  /** The (at most) 100 characters after the first occurrence of `keyword`, ignoring case. */
  function Window(text: string, keyword: string): (r: Option<string>)
    ensures r.Some? ==> |r.value| <= 100
  {
    match Text.FindIgnoringCase(text, keyword)
    case None => None
    case Some(p) =>
      var start := p + |keyword|;
      Some(text[start..if start + 100 <= |text| then start + 100 else |text|])
  }

  /** `find_value_unit_near`: the leftmost number in the window, and the unit text just after it. */
  function FindValueUnitNear(text: string, keyword: string): (Option<real>, Option<string>)
  {
    match Window(text, keyword)
    case None => (None, None)
    case Some(w) => ReadSnippet(w)
  }

  /** The number and unit read from the snippet after the keyword. */
  function ReadSnippet(w: string): (Option<real>, Option<string>)
  {
    match FirstNumber(w, 0)
    case None => (None, None)
    case Some((i, e)) =>
      match Text.ParseDecimal(w[i..e])
      case None => (None, None)
      case Some(v) => (Some(v), UnitIn(w[e..]))
  }

  /** No numeral starts at `a`. */
  predicate NoNumeralAt(w: string, a: nat)
    requires a <= |w|
  {
    forall b :: a <= b <= |w| ==> !IsNumeral(w[a..b])
  }

  /** `w[a..b]` is what `re.search(NUMERIC_PATTERN, w)` finds: the leftmost numeral, as long as it goes. */
  predicate LeftmostLongestNumeral(w: string, a: nat, b: nat)
  {
    a < b <= |w| && IsNumeral(w[a..b])
    && (forall x :: 0 <= x < a ==> NoNumeralAt(w, x))
    && (forall b' :: b < b' <= |w| ==> !IsNumeral(w[a..b']))
  }

  lemma NoMatchNoNumeral(w: string, a: nat)
    requires a <= |w| && NumberEnd(w, a).None?
    ensures NoNumeralAt(w, a)
  {
    forall b | a <= b <= |w| ensures !IsNumeral(w[a..b]) {
      if IsNumeral(w[a..b]) {
        NumberEndIsLongest(w, a, b);
      }
    }
  }

  /**
   * A snippet gives nothing when it holds no numeral; otherwise the value of
   * the leftmost numeral, taken as long as it goes, and the first unit text
   * after that numeral. A unit is never reported without a value.
   */
  lemma ReadSnippetSpec(w: string)
    ensures ReadSnippet(w).1.Some? ==> ReadSnippet(w).0.Some?
    ensures ReadSnippet(w).0.None? <==> forall a :: 0 <= a <= |w| ==> NoNumeralAt(w, a)
    ensures ReadSnippet(w).0.Some? ==>
              exists a: nat, b: nat :: LeftmostLongestNumeral(w, a, b)
                && ReadSnippet(w).0 == Text.ParseDecimal(w[a..b]) && ReadSnippet(w).1 == UnitIn(w[b..])
  {
    match FirstNumber(w, 0)
    case None =>
      forall a | 0 <= a <= |w| ensures NoNumeralAt(w, a) {
        NoMatchNoNumeral(w, a);
      }
    case Some((a, e)) =>
      FirstNumberIsLeftmostLongest(w, a, e);
      assert !NoNumeralAt(w, a);
      NumeralParses(w[a..e]);
  }

  lemma FirstNumberIsLeftmostLongest(w: string, a: nat, e: nat)
    requires FirstNumber(w, 0) == Some((a, e))
    ensures LeftmostLongestNumeral(w, a, e)
  {
    NumberEndIsNumeral(w, a);
    forall x | 0 <= x < a ensures NoNumeralAt(w, x) {
      NoMatchNoNumeral(w, x);
    }
    forall b' | e < b' <= |w| ensures !IsNumeral(w[a..b']) {
      if IsNumeral(w[a..b']) {
        NumberEndIsLongest(w, a, b');
      }
    }
  }

  /**
   * `find_value_unit_near` reads nothing when the keyword does not occur, and
   * otherwise reads the snippet of at most 100 characters after its first
   * occurrence.
   */
  lemma FindValueUnitNearSpec(text: string, keyword: string)
    ensures Text.FindIgnoringCase(text, keyword).None? ==> FindValueUnitNear(text, keyword) == (None, None)
    ensures Text.FindIgnoringCase(text, keyword).Some? ==>
              var p := Text.FindIgnoringCase(text, keyword).value;
              var w := Window(text, keyword).value;
              && p + |keyword| <= |text| && Text.MatchesAt(text, keyword, p)
              && (forall q :: 0 <= q < p ==> !Text.MatchesAt(text, keyword, q))
              && w == text[p + |keyword|..][..if |text| - p - |keyword| < 100 then |text| - p - |keyword| else 100]
              && FindValueUnitNear(text, keyword) == ReadSnippet(w)
  {
  }
}
