/**
 * The two pieces of the PDF writer that decide text rather than layout:
 * `clean_text`, which turns typographic punctuation into ASCII, and the
 * supplement list printed under a section or the priority focus, in which a
 * supplement appears once per (name, dosage, product link).
 */
module ReportText {
  import opened Wrappers
  import Text
  import opened MarkerEvaluation
  import opened ReportEngine

  // ---- clean_text ----

  /** The five characters `clean_text` replaces: curly quotes and the en dash. */
  predicate IsTypographic(c: char)
  {
    c == '\U{2018}' || c == '\U{2019}' || c == '\U{201C}' || c == '\U{201D}' || c == '\U{2013}'
  }

  /** The ASCII stand-in for one character. */
  function Plain(c: char): (r: char)
    ensures !IsTypographic(r)
    ensures !IsTypographic(c) ==> r == c
  {
    if c == '\U{2018}' || c == '\U{2019}' then '\''
    else if c == '\U{201C}' || c == '\U{201D}' then '"'
    else if c == '\U{2013}' then '-'
    else c
  }

  /**
   * `clean_text`: a missing or empty text gives the empty string; otherwise
   * five replacements in turn, which replace each character by its stand-in.
   */
  function CleanText(text: Option<string>): (r: string)
    ensures text.None? ==> r == ""
    ensures text.Some? ==> |r| == |text.value| && forall i :: 0 <= i < |r| ==> r[i] == Plain(text.value[i])
  {
    match text
    case None => ""
    case Some(s) =>
      var single := Text.ReplaceChar(Text.ReplaceChar(s, '\U{2018}', '\''), '\U{2019}', '\'');
      var double := Text.ReplaceChar(Text.ReplaceChar(single, '\U{201C}', '"'), '\U{201D}', '"');
      Text.ReplaceChar(double, '\U{2013}', '-')
  }

  /** No typographic character is left. */
  lemma CleanTextIsPlain(s: string)
    ensures forall i :: 0 <= i < |CleanText(Some(s))| ==> !IsTypographic(CleanText(Some(s))[i])
  {
  }

  /** Text without typographic characters is printed as it is. */
  lemma CleanTextKeepsPlainText(s: string)
    requires forall i :: 0 <= i < |s| ==> !IsTypographic(s[i])
    ensures CleanText(Some(s)) == s
  {
  }

  lemma CleanTextIdempotent(text: Option<string>)
    ensures CleanText(Some(CleanText(text))) == CleanText(text)
  {
    if text.Some? {
      CleanTextIsPlain(text.value);
      CleanTextKeepsPlainText(CleanText(text));
    }
  }

  // ---- the recommended supplements of a block ----

  /** The key the writer deduplicates on. */
  datatype SupplementKey = SupplementKey(name: Option<string>, dosage: Option<string>, productLink: Option<string>)

  function KeyOf(s: Supplement): SupplementKey
  {
    SupplementKey(s.name, s.dosage, s.productLink)
  }

  /** The supplements of each result of a section, in order; the cholesterol readings carry none. */
  function SectionSupplements(section: Section): (r: seq<seq<Supplement>>)
    ensures |r| == |section.results|
    ensures forall i :: 0 <= i < |r| ==>
              r[i] == (if section.results[i].Evaluated? then section.results[i].e.supplements else [])
  {
    seq(|section.results|, i requires 0 <= i < |section.results| =>
      if section.results[i].Evaluated? then section.results[i].e.supplements else [])
  }

  /** The supplements of each result of the priority focus, in order. */
  function FocusSupplements(focus: Focus): (r: seq<seq<Supplement>>)
    ensures |r| == |focus.results|
    ensures forall i :: 0 <= i < |r| ==> r[i] == focus.results[i].e.supplements
  {
    seq(|focus.results|, i requires 0 <= i < |focus.results| => focus.results[i].e.supplements)
  }

  /** All supplements of a block, result by result. */
  function Flatten(lists: seq<seq<Supplement>>): seq<Supplement>
  {
    if lists == [] then [] else Flatten(lists[..|lists| - 1]) + lists[|lists| - 1]
  }

  function Keys(ss: seq<Supplement>): set<SupplementKey>
  {
    set i | 0 <= i < |ss| :: KeyOf(ss[i])
  }

  /** The supplements printed: each one whose key has not been printed yet. */
  function Recommended(ss: seq<Supplement>): seq<Supplement>
  {
    if ss == [] then []
    else
      var shown := Recommended(ss[..|ss| - 1]);
      if KeyOf(ss[|ss| - 1]) in Keys(shown) then shown else shown + [ss[|ss| - 1]]
  }

  lemma KeysAppend(a: seq<Supplement>, s: Supplement)
    ensures Keys(a + [s]) == Keys(a) + {KeyOf(s)}
  {
    assert (a + [s])[|a|] == s;
    forall k | k in Keys(a) ensures k in Keys(a + [s]) {
      var i :| 0 <= i < |a| && KeyOf(a[i]) == k;
      assert (a + [s])[i] == a[i];
    }
  }

  predicate NoRepeatedKey(ss: seq<Supplement>)
  {
    forall i, j :: 0 <= i < j < |ss| ==> KeyOf(ss[i]) != KeyOf(ss[j])
  }

  /** No two printed supplements share a key. */
  lemma {:induction false} RecommendedDistinct(ss: seq<Supplement>)
    ensures NoRepeatedKey(Recommended(ss))
  {
    if ss != [] {
      var shown := Recommended(ss[..|ss| - 1]);
      RecommendedDistinct(ss[..|ss| - 1]);
      var last := ss[|ss| - 1];
      if KeyOf(last) !in Keys(shown) {
        var r := shown + [last];
        assert Recommended(ss) == r;
        forall i, j | 0 <= i < j < |r| ensures KeyOf(r[i]) != KeyOf(r[j]) {
          assert r[i] == shown[i];
          if j == |shown| {
            assert r[j] == last;
            assert KeyOf(shown[i]) in Keys(shown);
          } else {
            assert r[j] == shown[j];
          }
        }
      }
    }
  }

  /** Every key of the block is printed, and only those. */
  lemma {:induction false} RecommendedCovers(ss: seq<Supplement>)
    ensures Keys(Recommended(ss)) == Keys(ss)
  {
    if ss != [] {
      var prefix := ss[..|ss| - 1];
      var last := ss[|ss| - 1];
      RecommendedCovers(prefix);
      assert ss == prefix + [last];
      KeysAppend(prefix, last);
      var shown := Recommended(prefix);
      if KeyOf(last) !in Keys(shown) {
        KeysAppend(shown, last);
      }
    }
  }

  /** Each printed supplement is the first of the block with its key. */
  lemma {:induction false} RecommendedFirstOccurrence(ss: seq<Supplement>)
    ensures forall s :: s in Recommended(ss) ==>
              exists i :: 0 <= i < |ss| && ss[i] == s && forall j :: 0 <= j < i ==> KeyOf(ss[j]) != KeyOf(s)
  {
    if ss != [] {
      var prefix := ss[..|ss| - 1];
      var last := ss[|ss| - 1];
      RecommendedFirstOccurrence(prefix);
      RecommendedCovers(prefix);
      forall s | s in Recommended(ss)
        ensures exists i :: 0 <= i < |ss| && ss[i] == s && forall j :: 0 <= j < i ==> KeyOf(ss[j]) != KeyOf(s)
      {
        if s in Recommended(prefix) {
          var i :| 0 <= i < |prefix| && prefix[i] == s && forall j :: 0 <= j < i ==> KeyOf(prefix[j]) != KeyOf(s);
          assert ss[i] == s;
          assert forall j :: 0 <= j < i ==> ss[j] == prefix[j];
        } else {
          assert s == last && KeyOf(last) !in Keys(prefix);
          forall j | 0 <= j < |ss| - 1 ensures KeyOf(ss[j]) != KeyOf(s) {
            assert ss[j] == prefix[j];
          }
        }
      }
    }
  }

  lemma FlattenStep(lists: seq<seq<Supplement>>, m: nat, k: nat)
    requires m < |lists| && k < |lists[m]|
    ensures Flatten(lists[..m]) + lists[m][..k + 1] == (Flatten(lists[..m]) + lists[m][..k]) + [lists[m][k]]
  {
    assert lists[m][..k + 1] == lists[m][..k] + [lists[m][k]];
  }

  lemma RecommendedStep(ss: seq<Supplement>, s: Supplement)
    ensures Recommended(ss + [s]) ==
              if KeyOf(s) in Keys(Recommended(ss)) then Recommended(ss) else Recommended(ss) + [s]
  {
    assert (ss + [s])[..|ss|] == ss;
  }

  /** The writer's loop over a block's results with its `seen_supps` set. */
  method RecommendedFor(lists: seq<seq<Supplement>>) returns (printed: seq<Supplement>)
    ensures printed == Recommended(Flatten(lists))
  {
    printed := [];
    var seen: set<SupplementKey> := {};
    for m := 0 to |lists|
      invariant printed == Recommended(Flatten(lists[..m]))
      invariant seen == Keys(printed)
    {
      var supps := lists[m];
      ghost var before := Flatten(lists[..m]);
      assert before + supps[..0] == before;
      for k := 0 to |supps|
        invariant printed == Recommended(before + supps[..k])
        invariant seen == Keys(printed)
      {
        var supp := supps[k];
        FlattenStep(lists, m, k);
        RecommendedStep(before + supps[..k], supp);
        var key := SupplementKey(supp.name, supp.dosage, supp.productLink);
        if key !in seen {
          KeysAppend(printed, supp);
          seen := seen + {key};
          printed := printed + [supp];
        }
      }
      assert supps[..|supps|] == supps;
      assert lists[..m + 1][..m] == lists[..m];
    }
    assert lists[..|lists|] == lists;
  }
}
