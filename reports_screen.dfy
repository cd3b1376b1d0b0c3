/**
 * The report selection screen: the CBC and CMP panels are required and
 * preselected, the six optional panels are toggled by their checkboxes in
 * the order the user clicks them.
 */
module ReportsScreen {
  import opened Wrappers
  import opened Intake

  /** The selectable reports in display order: key and whether it is required. */
  const ReportTable: seq<(string, bool)> := [
    ("cbc", true), ("cmp", true), ("ironPanel", false), ("hba1c", false),
    ("lipidPanel", false), ("magnesium", false), ("thyroid", false), ("vitaminD", false)]

  /** The keys of the table. */
  const ReportKeys: set<string> := set p | p in ReportTable :: p.0

  /** `reports.filter((r) => r.required).map((r) => r.key)`. */
  function RequiredKeys(table: seq<(string, bool)>): (r: seq<string>)
    ensures forall k :: k in r <==> (k, true) in table
  {
    if table == [] then []
    else
      var rest := RequiredKeys(table[1..]);
      assert forall k :: (k, true) in table <==> (k, true) == table[0] || (k, true) in table[1..];
      if table[0].1 then [table[0].0] + rest else rest
  }

  /** The selection the screen starts with. */
  lemma InitialSelection()
    ensures RequiredKeys(ReportTable) == ["cbc", "cmp"]
  {
  }

  lemma InitialSelectionWellFormed()
    ensures WellFormed(["cbc", "cmp"])
  {
    var s := ["cbc", "cmp"];
    assert ReportTable[0].0 in ReportKeys && ReportTable[1].0 in ReportKeys;
    assert forall k :: k in s ==> k == ReportTable[0].0 || k == ReportTable[1].0;
  }

  /** `prev.filter((k) => k !== key)`. */
  function Without(s: seq<string>, key: string): (r: seq<string>)
    ensures |r| <= |s|
    ensures forall x :: x in r <==> x in s && x != key
    ensures key !in s ==> r == s
  {
    if s == [] then []
    else if s[0] == key then Without(s[1..], key)
    else [s[0]] + Without(s[1..], key)
  }

  /**
   * The update `handleCheckboxChange(key, required)` applies to the
   * selection: nothing for a required report, otherwise remove `key` when it
   * is selected and append it when it is not.
   */
  function Toggle(selected: seq<string>, key: string, required: bool): (r: seq<string>)
    ensures required ==> r == selected
    ensures !required && key in selected ==> key !in r && forall x :: x != key ==> (x in r <==> x in selected)
    ensures !required && key !in selected ==> r == selected + [key]
  {
    if required then selected
    else if key in selected then Without(selected, key)
    else selected + [key]
  }

  /** Whether the table marks `key` as required; the checkbox passes this flag along with its key. */
  function IsRequired(key: string): bool
  {
    (key, true) in ReportTable
  }

  /**
   * The selection the screen can show: the two required panels first, then
   * distinct optional panels from the table.
   */
  predicate WellFormed(selected: seq<string>)
  {
    |selected| >= 2 && selected[0] == "cbc" && selected[1] == "cmp" && Distinct(selected)
    && forall k :: k in selected ==> k in ReportKeys
  }

  lemma {:induction false} WithoutKeepsOrder(s: seq<string>, key: string)
    requires Distinct(s)
    ensures Distinct(Without(s, key))
    ensures |s| >= 1 && s[0] != key ==> |Without(s, key)| >= 1 && Without(s, key)[0] == s[0]
  {
    if s != [] {
      DistinctTail(s);
      WithoutKeepsOrder(s[1..], key);
      if s[0] != key {
        var r := Without(s[1..], key);
        forall i, j | 0 <= i < j < |[s[0]] + r| ensures ([s[0]] + r)[i] != ([s[0]] + r)[j] {
          if i == 0 { assert ([s[0]] + r)[j] in r; }
        }
      }
    }
  }

  lemma DistinctTail(s: seq<string>)
    requires Distinct(s) && s != []
    ensures Distinct(s[1..])
  {
    forall i, j | 0 <= i < j < |s[1..]| ensures s[1..][i] != s[1..][j] { assert s[1..][i] == s[i + 1]; }
  }

  lemma DistinctAppend(s: seq<string>, key: string)
    requires Distinct(s) && key !in s
    ensures Distinct(s + [key])
  {
    var r := s + [key];
    forall i, j | 0 <= i < j < |r| ensures r[i] != r[j] {
      if j == |r| - 1 { assert r[i] in s; }
    }
  }

  /**
   * Toggling any report of the table keeps the selection well formed: the
   * required panels cannot be removed and no report is listed twice.
   */
  lemma ToggleKeepsSelectionWellFormed(selected: seq<string>, key: string)
    requires WellFormed(selected) && key in ReportKeys
    ensures WellFormed(Toggle(selected, key, IsRequired(key)))
  {
    if key == "cbc" || key == "cmp" {
      assert ReportTable[0] == ("cbc", true) && ReportTable[1] == ("cmp", true);
    } else {
      assert !IsRequired(key);
      if key in selected {
        WithoutKeepsOrder(selected, key);
        DistinctTail(selected);
        WithoutKeepsOrder(selected[1..], key);
        assert Without(selected, key) == [selected[0]] + Without(selected[1..], key);
      } else {
        DistinctAppend(selected, key);
      }
    }
  }

  /**
   * Removal keeps the click order: it acts on each part of a split
   * selection separately, so every key it keeps stays where it was relative
   * to the others.
   */
  lemma {:induction false} WithoutConcat(a: seq<string>, b: seq<string>, key: string)
    ensures Without(a + b, key) == Without(a, key) + Without(b, key)
  {
    if a != [] {
      WithoutConcat(a[1..], b, key);
      assert (a + b)[1..] == a[1..] + b;
    } else {
      assert a + b == b;
    }
  }

  /** Removing a key that occurs once, at position `i`, closes the gap it leaves. */
  lemma WithoutRemovesAt(s: seq<string>, key: string, i: nat)
    requires i < |s| && s[i] == key && key !in s[..i] && key !in s[i + 1..]
    ensures Without(s, key) == s[..i] + s[i + 1..]
  {
    assert s == s[..i] + ([key] + s[i + 1..]);
    WithoutConcat(s[..i], [key] + s[i + 1..], key);
    WithoutConcat([key], s[i + 1..], key);
    assert Without([key], key) == [];
  }

  /**
   * Unticking a selected optional report takes it out of the selection and
   * keeps the other reports in the order they were clicked.
   */
  lemma ToggleRemovesInPlace(selected: seq<string>, key: string, i: nat)
    requires Distinct(selected) && i < |selected| && selected[i] == key
    ensures Toggle(selected, key, false) == selected[..i] + selected[i + 1..]
  {
    var before, after := selected[..i], selected[i + 1..];
    forall j | 0 <= j < |before| ensures before[j] != key { assert before[j] == selected[j]; }
    forall j | 0 <= j < |after| ensures after[j] != key { assert after[j] == selected[i + 1 + j]; }
    WithoutRemovesAt(selected, key, i);
  }

  /** Clicking an unselected optional report twice gives back the selection it started from. */
  lemma ToggleTwiceRestores(selected: seq<string>, key: string)
    requires key !in selected
    ensures Toggle(Toggle(selected, key, false), key, false) == selected
  {
    WithoutAppended(selected, key);
  }

  lemma {:induction false} WithoutAppended(s: seq<string>, key: string)
    requires key !in s
    ensures Without(s + [key], key) == s
  {
    if s != [] {
      WithoutAppended(s[1..], key);
      assert (s + [key])[1..] == s[1..] + [key];
    }
  }

  /** Reports.tsx: the screen's own selection state. */
  class ReportSelection {
    var selected: seq<string>

    constructor ()
      ensures selected == RequiredKeys(ReportTable) && WellFormed(selected)
    {
      selected := ["cbc", "cmp"];
      InitialSelection();
      InitialSelectionWellFormed();
    }

    method HandleCheckboxChange(key: string, required: bool)
      modifies this
      ensures selected == Toggle(old(selected), key, required)
    {
      if required { return; }
      if key in selected {
        selected := Without(selected, key);
      } else {
        selected := selected + [key];
      }
    }

    /** Stores the selection in the record and moves on to the upload screen. */
    method HandleSubmit(store: IntakeStore) returns (route: string)
      modifies store
      ensures store.intake == old(store.intake).(selectedReports := Some(selected))
      ensures route == "/upload/upload-reports"
    {
      store.SetSelectedReports(selected);
      route := "/upload/upload-reports";
    }
  }
}
