/**
 * The `/extract` endpoint: each uploaded file is sent to OCR according to its
 * type, the page texts are joined, the first matching alias of each test
 * gives its reading, and the readings are laid out over the canonical panels.
 * The two OCR services are parameters.
 */
module OcrRouter {
  import opened Wrappers
  import Text
  import opened Dicts
  import opened LabConstants
  import opened OcrService

  // ---- the file type ----

  /** `s.split('.')[-1]`: what follows the last point, or all of `s` when it has none. */
  function LastSegment(s: string): (r: string)
    ensures '.' !in r
    ensures |r| <= |s| && r == s[|s| - |r|..]
  {
    if s == [] then []
    else if s[|s| - 1] == '.' then []
    else LastSegment(s[..|s| - 1]) + [s[|s| - 1]]
  }

  predicate IsImageName(name: string)
  {
    Text.EndsWith(name, ".png") || Text.EndsWith(name, ".jpg") || Text.EndsWith(name, ".jpeg") || Text.EndsWith(name, ".webp")
  }

  /** The MIME type chosen for a lower-cased file name; `None` is the 400 for any other type. */
  function MimeType(name: string): Option<string>
  {
    if Text.EndsWith(name, ".pdf") then Some("application/pdf")
    else if IsImageName(name) then Some("image/" + LastSegment(name))
    else None
  }

  lemma {:induction false} LastSegmentOfExtension(name: string, ext: string)
    requires '.' !in ext && Text.EndsWith(name, "." + ext)
    ensures LastSegment(name) == ext
  {
    if ext == [] {
      assert name[|name| - 1] == '.';
    } else {
      var shorter := name[..|name| - 1];
      assert name[|name| - 1] == ext[|ext| - 1];
      assert shorter[|shorter| - |ext|..] == ("." + ext)[..|ext|];
      assert ("." + ext)[..|ext|] == "." + ext[..|ext| - 1];
      assert ext[|ext| - 1] in ext;
      assert '.' !in ext[..|ext| - 1] by {
        forall x | x in ext[..|ext| - 1] ensures x in ext {
        }
      }
      LastSegmentOfExtension(shorter, ext[..|ext| - 1]);
      assert LastSegment(name) == LastSegment(shorter) + [name[|name| - 1]];
    }
  }

  /** A PDF gives `application/pdf`, an image gives `image/` and its extension, anything else is refused. */
  lemma MimeTypeCases(name: string)
    ensures Text.EndsWith(name, ".pdf") ==> MimeType(name) == Some("application/pdf")
    ensures !Text.EndsWith(name, ".pdf") && Text.EndsWith(name, ".png") ==> MimeType(name) == Some("image/png")
    ensures !Text.EndsWith(name, ".pdf") && Text.EndsWith(name, ".jpg") ==> MimeType(name) == Some("image/jpg")
    ensures !Text.EndsWith(name, ".pdf") && Text.EndsWith(name, ".jpeg") ==> MimeType(name) == Some("image/jpeg")
    ensures !Text.EndsWith(name, ".pdf") && Text.EndsWith(name, ".webp") ==> MimeType(name) == Some("image/webp")
    ensures MimeType(name).None? <==> !Text.EndsWith(name, ".pdf") && !IsImageName(name)
  {
    assert "." + "png" == ".png" && "." + "jpg" == ".jpg" && "." + "jpeg" == ".jpeg" && "." + "webp" == ".webp";
    assert "image/" + "png" == "image/png" && "image/" + "jpg" == "image/jpg";
    assert "image/" + "jpeg" == "image/jpeg" && "image/" + "webp" == "image/webp";
    if Text.EndsWith(name, ".png") {
      LastSegmentOfExtension(name, "png");
    }
    if Text.EndsWith(name, ".jpg") {
      LastSegmentOfExtension(name, "jpg");
    }
    if Text.EndsWith(name, ".jpeg") {
      LastSegmentOfExtension(name, "jpeg");
    }
    if Text.EndsWith(name, ".webp") {
      LastSegmentOfExtension(name, "webp");
    }
  }

  // ---- the page texts ----

  /** A field of a page object as returned by the OCR service. */
  datatype Field = Absent | Null | Str(s: string) | Other(truthy: bool)

  datatype Page = Page(text: Field, markdown: Field)

  /** Python truthiness of a field. */
  predicate Truthy(f: Field)
  {
    match f
    case Absent => false
    case Null => false
    case Str(s) => s != ""
    case Other(t) => t
  }

  /**
   * `page.get("text") or page.get("markdown", "")`, as far as it can be
   * appended to a string: `None` is the failure that becomes a 502.
   */
  function PageText(p: Page): (r: Option<string>)
    ensures Truthy(p.text) ==> (r.Some? <==> p.text.Str?) && (r.Some? ==> r.value == p.text.s)
    ensures !Truthy(p.text) && p.markdown.Absent? ==> r == Some("")
    ensures !Truthy(p.text) && !p.markdown.Absent? ==> (r.Some? <==> p.markdown.Str?) && (r.Some? ==> r.value == p.markdown.s)
  {
    var chosen := if Truthy(p.text) then p.text else if p.markdown.Absent? then Str("") else p.markdown;
    if chosen.Str? then Some(chosen.s) else None
  }

  /** The text the pages of one file add: each page's text after a line break. */
  function PagesText(pages: seq<Page>): Option<string>
  {
    if pages == [] then Some("")
    else
      match PagesText(pages[..|pages| - 1])
      case None => None
      case Some(t) =>
        match PageText(pages[|pages| - 1])
        case None => None
        case Some(x) => Some(t + "\n" + x)
  }

  /** Texts each preceded by a line break. */
  function Joined(texts: seq<string>): string
  {
    if texts == [] then "" else Joined(texts[..|texts| - 1]) + "\n" + texts[|texts| - 1]
  }

  /** The pages give a text exactly when each of them does, and then it is their texts joined in order. */
  lemma {:induction false} PagesTextJoined(pages: seq<Page>)
    ensures PagesText(pages).Some? <==> forall i :: 0 <= i < |pages| ==> PageText(pages[i]).Some?
    ensures PagesText(pages).Some? ==>
              PagesText(pages).value == Joined(seq(|pages|, i requires 0 <= i < |pages| && PageText(pages[i]).Some? =>
                                                   PageText(pages[i]).value))
  {
    if pages != [] {
      var prefix := pages[..|pages| - 1];
      PagesTextJoined(prefix);
      assert forall i :: 0 <= i < |prefix| ==> prefix[i] == pages[i];
      if PagesText(pages).Some? {
        var texts := seq(|pages|, i requires 0 <= i < |pages| && PageText(pages[i]).Some? => PageText(pages[i]).value);
        var before := seq(|prefix|, i requires 0 <= i < |prefix| && PageText(prefix[i]).Some? => PageText(prefix[i]).value);
        assert texts[..|texts| - 1] == before;
      }
    }
  }

  // ---- the files ----

  /** An uploaded file: its name and its bytes. */
  datatype Upload = Upload(filename: string, content: seq<bv8>)

  /** The OCR services for documents and for images; `None` is a failed call. */
  type DocumentOcr = (seq<bv8>, string) -> Option<seq<Page>>
  type ImageOcr = (seq<bv8>, string, string) -> Option<seq<Page>>

  /** The pages OCR returns for a file of the given type. */
  function PagesOf(f: Upload, mime: string, doc: DocumentOcr, img: ImageOcr): Option<seq<Page>>
  {
    if Text.StartsWith(mime, "application") then doc(f.content, mime) else img(f.content, mime, Text.Lower(f.filename))
  }

  /** What one file adds to the text, or the status code that ends the request. */
  function FileText(f: Upload, doc: DocumentOcr, img: ImageOcr): Result<string, int>
  {
    match MimeType(Text.Lower(f.filename))
    case None => Err(400)
    case Some(mime) =>
      match PagesOf(f, mime, doc, img)
      case None => Err(502)
      case Some(pages) =>
        match PagesText(pages)
        case None => Err(502)
        case Some(t) => Ok(t)
  }

  /** The texts of the files joined in order; the first result that is an error decides the status code. */
  function Collect(rs: seq<Result<string, int>>): Result<string, int>
  {
    if rs == [] then Ok("")
    else
      match Collect(rs[..|rs| - 1])
      case Err(code) => Err(code)
      case Ok(t) =>
        match rs[|rs| - 1]
        case Err(code) => Err(code)
        case Ok(x) => Ok(t + x)
  }

  /** What each file gives, in order. */
  function FileResults(files: seq<Upload>, doc: DocumentOcr, img: ImageOcr): (r: seq<Result<string, int>>)
    ensures |r| == |files|
    ensures forall i :: 0 <= i < |files| ==> r[i] == FileText(files[i], doc, img)
  {
    seq(|files|, i requires 0 <= i < |files| => FileText(files[i], doc, img))
  }

  /** `full_text`, or the status code of the first file that fails. */
  function FullText(files: seq<Upload>, doc: DocumentOcr, img: ImageOcr): Result<string, int>
  {
    Collect(FileResults(files, doc, img))
  }

  /** The results join exactly when none is an error. */
  lemma {:induction false} CollectOk(rs: seq<Result<string, int>>)
    ensures Collect(rs).Ok? <==> forall i :: 0 <= i < |rs| ==> rs[i].Ok?
  {
    if rs != [] {
      var prefix := rs[..|rs| - 1];
      CollectOk(prefix);
      assert forall i :: 0 <= i < |prefix| ==> prefix[i] == rs[i];
    }
  }

  /** A failure is the first error among the results. */
  lemma {:induction false} CollectFirstError(rs: seq<Result<string, int>>)
    ensures Collect(rs).Err? ==>
              exists i :: (0 <= i < |rs| && rs[i] == Collect(rs) && forall j :: 0 <= j < i ==> rs[j].Ok?)
  {
    if rs != [] {
      var prefix := rs[..|rs| - 1];
      CollectFirstError(prefix);
      CollectOk(prefix);
      match Collect(prefix)
      case Err(_) =>
        var i :| 0 <= i < |prefix| && prefix[i] == Collect(prefix) && forall j :: 0 <= j < i ==> prefix[j].Ok?;
        assert prefix[i] == rs[i];
        assert forall j :: 0 <= j < i ==> prefix[j] == rs[j];
      case Ok(_) =>
        assert forall j :: 0 <= j < |prefix| ==> prefix[j] == rs[j];
    }
  }

  /** An error among the first `n` results is the outcome of them all. */
  lemma {:induction false} CollectPrefixError(rs: seq<Result<string, int>>, n: nat)
    requires n <= |rs| && Collect(rs[..n]).Err?
    ensures Collect(rs) == Collect(rs[..n])
  {
    if n < |rs| {
      var prefix := rs[..|rs| - 1];
      assert prefix[..n] == rs[..n];
      CollectPrefixError(prefix, n);
    } else {
      assert rs[..n] == rs;
    }
  }

  lemma CollectStep(rs: seq<Result<string, int>>, i: nat)
    requires i < |rs|
    ensures Collect(rs[..i + 1]) ==
              match Collect(rs[..i])
              case Err(code) => Err(code)
              case Ok(t) =>
                match rs[i]
                case Err(code) => Err(code)
                case Ok(x) => Ok(t + x)
  {
    assert rs[..i + 1][..i] == rs[..i];
  }

  // ---- the alias loop ----

  /** The reading an alias gives a test when it occurs in the text. */
  function ReadingFor(text: string, alias: string, canonical: string, units: map<string, seq<string>>): Reading
  {
    var found := FindValueUnitNear(text, alias);
    Reading(found.0, UnitVerdict(units, canonical, found.1))
  }

  /** `found_results` after the alias loop has gone through `aliases`. */
  function Found(aliases: seq<(string, string)>, text: string, units: map<string, seq<string>>): map<string, Reading>
  {
    if aliases == [] then map[]
    else
      var found := Found(aliases[..|aliases| - 1], text, units);
      var (alias, canonical) := aliases[|aliases| - 1];
      if canonical in found then found
      else if Text.FindIgnoringCase(text, alias).Some? then found[canonical := ReadingFor(text, alias, canonical, units)]
      else found
  }

  /** An alias of `canonical` that occurs in the text. */
  predicate Matches(entry: (string, string), text: string, canonical: string)
  {
    entry.1 == canonical && Text.FindIgnoringCase(text, entry.0).Some?
  }

  /** The index of the first alias of `canonical` that occurs in the text, if any. */
  function FirstMatch(aliases: seq<(string, string)>, text: string, canonical: string): (r: Option<nat>)
    ensures r.Some? ==> r.value < |aliases| && Matches(aliases[r.value], text, canonical)
    ensures r.Some? ==> forall j :: 0 <= j < r.value ==> !Matches(aliases[j], text, canonical)
    ensures r.None? ==> forall j :: 0 <= j < |aliases| ==> !Matches(aliases[j], text, canonical)
  {
    if aliases == [] then None
    else
      var prefix := aliases[..|aliases| - 1];
      assert forall j :: 0 <= j < |prefix| ==> prefix[j] == aliases[j];
      match FirstMatch(prefix, text, canonical)
      case Some(i) => Some(i)
      case None => if Matches(aliases[|aliases| - 1], text, canonical) then Some(|aliases| - 1) else None
  }

  /**
   * A test has a reading exactly when one of its aliases occurs in the text,
   * and the reading is taken at the first such alias; later aliases are skipped.
   */
  lemma {:induction false} FoundLookup(aliases: seq<(string, string)>, text: string, units: map<string, seq<string>>, canonical: string)
    ensures canonical in Found(aliases, text, units) <==> FirstMatch(aliases, text, canonical).Some?
    ensures canonical in Found(aliases, text, units) ==>
              var i := FirstMatch(aliases, text, canonical).value;
              Found(aliases, text, units)[canonical] == ReadingFor(text, aliases[i].0, canonical, units)
  {
    if aliases != [] {
      var prefix := aliases[..|aliases| - 1];
      var (alias, c) := aliases[|aliases| - 1];
      var found := Found(prefix, text, units);
      FoundLookup(prefix, text, units, canonical);
      match FirstMatch(prefix, text, canonical)
      case Some(i) =>
        assert prefix[i] == aliases[i];
        assert FirstMatch(aliases, text, canonical) == Some(i);
        assert Found(aliases, text, units)[canonical] == found[canonical];
      case None =>
        assert canonical !in found;
        if c == canonical && Text.FindIgnoringCase(text, alias).Some? {
          assert FirstMatch(aliases, text, canonical) == Some(|aliases| - 1);
          assert Found(aliases, text, units) == found[canonical := ReadingFor(text, alias, canonical, units)];
        } else {
          assert FirstMatch(aliases, text, canonical) == None;
          assert canonical !in Found(aliases, text, units);
        }
    }
  }

  lemma FoundStep(aliases: seq<(string, string)>, text: string, units: map<string, seq<string>>, i: nat)
    requires i < |aliases|
    ensures Found(aliases[..i + 1], text, units) ==
              var found := Found(aliases[..i], text, units);
              var (alias, canonical) := aliases[i];
              if canonical in found then found
              else if Text.FindIgnoringCase(text, alias).Some? then found[canonical := ReadingFor(text, alias, canonical, units)]
              else found
  {
    assert aliases[..i + 1][..i] == aliases[..i];
  }

  /** The alias loop, with its `continue` for tests already read. */
  method FindReadings(aliases: seq<(string, string)>, text: string, units: map<string, seq<string>>) returns (found: map<string, Reading>)
    ensures found == Found(aliases, text, units)
  {
    found := map[];
    for i := 0 to |aliases|
      invariant found == Found(aliases[..i], text, units)
    {
      FoundStep(aliases, text, units, i);
      var (alias, canonical) := aliases[i];
      if canonical in found {
        continue;
      }
      if Text.FindIgnoringCase(text, alias).Some? {
        var near := FindValueUnitNear(text, alias);
        var unit := ValidateOrFillUnit(units, canonical, near.1);
        assert Reading(near.0, unit) == ReadingFor(text, alias, canonical, units);
        found := found[canonical := Reading(near.0, unit)];
      }
    }
    assert aliases[..|aliases|] == aliases;
  }

  // ---- the final layout ----

  /** `found_results.get(m) or {"value": None, "unit": None}`. */
  function ReadingOf(found: map<string, Reading>, m: string): Reading
  {
    if m in found then found[m] else NoReading
  }

  /** One panel after each of `markers` has been assigned its reading. */
  function FillPanel(panel: seq<(string, Reading)>, markers: seq<string>, found: map<string, Reading>): seq<(string, Reading)>
  {
    if markers == [] then panel
    else
      var m := markers[|markers| - 1];
      Put(FillPanel(panel, markers[..|markers| - 1], found), m, ReadingOf(found, m))
  }

  /** The panel named `name` of the lab reports, or an empty one. */
  function PanelNamed(reports: seq<(string, seq<(string, Reading)>)>, name: string): seq<(string, Reading)>
  {
    match Lookup(reports, name)
    case Some(p) => p
    case None => []
  }

  /** The lab reports after the layout loop has gone through `panels`. */
  function Layout(reports: seq<(string, seq<(string, Reading)>)>, panels: seq<(string, seq<string>)>, found: map<string, Reading>)
    : seq<(string, seq<(string, Reading)>)>
  {
    if panels == [] then reports
    else
      var r := Layout(reports, panels[..|panels| - 1], found);
      var (name, markers) := panels[|panels| - 1];
      Put(r, name, FillPanel(PanelNamed(r, name), markers, found))
  }

  /** The panel a table entry ends up as: each marker with its reading, in order. */
  function FilledPanel(markers: seq<string>, found: map<string, Reading>): (r: seq<(string, Reading)>)
    ensures |r| == |markers|
    ensures forall j :: 0 <= j < |markers| ==> r[j] == (markers[j], ReadingOf(found, markers[j]))
  {
    seq(|markers|, j requires 0 <= j < |markers| => (markers[j], ReadingOf(found, markers[j])))
  }

  /** A part-filled panel: the first `n` markers read, the rest blank. */
  function PartPanel(markers: seq<string>, found: map<string, Reading>, n: nat): (r: seq<(string, Reading)>)
    ensures |r| == |markers|
  {
    seq(|markers|, j requires 0 <= j < |markers| => (markers[j], if j < n then ReadingOf(found, markers[j]) else NoReading))
  }

  lemma {:induction false} FillPanelPart(markers: seq<string>, found: map<string, Reading>, n: nat)
    requires Unique(markers) && n <= |markers|
    ensures FillPanel(PartPanel(markers, found, 0), markers[..n], found) == PartPanel(markers, found, n)
  {
    if n > 0 {
      var m := markers[n - 1];
      assert markers[..n][..n - 1] == markers[..n - 1];
      assert markers[..n][n - 1] == m;
      var before := PartPanel(markers, found, n - 1);
      calc {
        FillPanel(PartPanel(markers, found, 0), markers[..n], found);
        Put(FillPanel(PartPanel(markers, found, 0), markers[..n - 1], found), m, ReadingOf(found, m));
        { FillPanelPart(markers, found, n - 1); }
        Put(before, m, ReadingOf(found, m));
      }
      assert UniqueKeys(before) by {
        forall i, j | 0 <= i < j < |before| ensures before[i].0 != before[j].0 {
          assert before[i].0 == markers[i] && before[j].0 == markers[j];
        }
      }
      assert before[n - 1].0 == m;
      PutAt(before, n - 1, ReadingOf(found, m));
      var after := PartPanel(markers, found, n);
      assert before[n - 1 := (m, ReadingOf(found, m))] == after by {
        forall j | 0 <= j < |after| ensures before[n - 1 := (m, ReadingOf(found, m))][j] == after[j] {
        }
      }
    }
  }

  /** Filling the blank panel of a list of distinct markers gives each marker its reading, in order. */
  lemma FillEmptyPanel(markers: seq<string>, found: map<string, Reading>)
    requires Unique(markers)
    ensures FillPanel(EmptyPanel(markers), markers, found) == FilledPanel(markers, found)
  {
    BlankIsPartPanel(markers, found);
    FullPartPanel(markers, found);
    assert markers[..|markers|] == markers;
    FillPanelPart(markers, found, |markers|);
  }

  lemma BlankIsPartPanel(markers: seq<string>, found: map<string, Reading>)
    requires Unique(markers)
    ensures EmptyPanel(markers) == PartPanel(markers, found, 0)
  {
    EmptyPanelShape(markers);
  }

  lemma FullPartPanel(markers: seq<string>, found: map<string, Reading>)
    ensures PartPanel(markers, found, |markers|) == FilledPanel(markers, found)
  {
  }

  /** Lab reports with the first `n` panels filled and the others blank. */
  function PartLayout(panels: seq<(string, seq<string>)>, found: map<string, Reading>, n: nat): (r: seq<(string, seq<(string, Reading)>)>)
    ensures |r| == |panels|
  {
    seq(|panels|, i requires 0 <= i < |panels| =>
      (panels[i].0, if i < n then FilledPanel(panels[i].1, found) else EmptyPanel(panels[i].1)))
  }

  lemma PartLayoutKeys(panels: seq<(string, seq<string>)>, found: map<string, Reading>, n: nat)
    requires UniqueKeys(panels)
    ensures UniqueKeys(PartLayout(panels, found, n))
  {
    var p := PartLayout(panels, found, n);
    forall i, j | 0 <= i < j < |p| ensures p[i].0 != p[j].0 {
      assert p[i].0 == panels[i].0 && p[j].0 == panels[j].0;
    }
  }

  /** Filling panel `n - 1` of the layout with the first `n - 1` panels filled. */
  lemma LayoutPartStep(panels: seq<(string, seq<string>)>, found: map<string, Reading>, n: nat)
    requires UniqueKeys(panels) && UniqueMarkers(panels) && 0 < n <= |panels|
    ensures var before := PartLayout(panels, found, n - 1);
            Put(before, panels[n - 1].0, FillPanel(PanelNamed(before, panels[n - 1].0), panels[n - 1].1, found))
              == PartLayout(panels, found, n)
  {
    var before := PartLayout(panels, found, n - 1);
    var markers := panels[n - 1].1;
    PartLayoutKeys(panels, found, n - 1);
    PartLayoutBlankAt(panels, found, n);
    FillEmptyPanel(markers, found);
    PutAt(before, n - 1, FilledPanel(markers, found));
    PartLayoutUpdate(panels, found, n);
  }

  /** Before panel `n - 1` is filled, the layout holds its blank panel. */
  lemma PartLayoutBlankAt(panels: seq<(string, seq<string>)>, found: map<string, Reading>, n: nat)
    requires UniqueKeys(panels) && UniqueMarkers(panels) && 0 < n <= |panels|
    ensures PartLayout(panels, found, n - 1)[n - 1] == (panels[n - 1].0, EmptyPanel(panels[n - 1].1))
    ensures PanelNamed(PartLayout(panels, found, n - 1), panels[n - 1].0) == EmptyPanel(panels[n - 1].1)
  {
    var before := PartLayout(panels, found, n - 1);
    PartLayoutKeys(panels, found, n - 1);
    LookupAt(before, n - 1);
  }

  /** Filling panel `n - 1` is updating the layout at that position. */
  lemma PartLayoutUpdate(panels: seq<(string, seq<string>)>, found: map<string, Reading>, n: nat)
    requires 0 < n <= |panels|
    ensures PartLayout(panels, found, n - 1)[n - 1 := (panels[n - 1].0, FilledPanel(panels[n - 1].1, found))]
              == PartLayout(panels, found, n)
  {
  }

  lemma {:induction false} LayoutPart(panels: seq<(string, seq<string>)>, found: map<string, Reading>, n: nat)
    requires UniqueKeys(panels) && UniqueMarkers(panels) && n <= |panels|
    ensures Layout(PartLayout(panels, found, 0), panels[..n], found) == PartLayout(panels, found, n)
  {
    if n > 0 {
      assert panels[..n][..n - 1] == panels[..n - 1];
      LayoutPart(panels, found, n - 1);
      LayoutPartStep(panels, found, n);
    }
  }

  /**
   * Laid out over the blank skeleton of a table of distinct panels with
   * distinct markers, the lab reports hold exactly the table's panels and
   * markers, in order, each marker with its reading or a blank one: a test
   * outside the table is dropped.
   */
  lemma LayoutShape(panels: seq<(string, seq<string>)>, found: map<string, Reading>)
    requires UniqueKeys(panels) && UniqueMarkers(panels)
    ensures |Layout(EmptyLabReports(panels), panels, found)| == |panels|
    ensures forall i :: 0 <= i < |panels| ==>
              Layout(EmptyLabReports(panels), panels, found)[i] == (panels[i].0, FilledPanel(panels[i].1, found))
  {
    EmptyLabReportsShape(panels);
    assert EmptyLabReports(panels) == PartLayout(panels, found, 0);
    LayoutPart(panels, found, |panels|);
    assert panels[..|panels|] == panels;
  }

  // ---- the endpoint ----

  /** The body of a successful response. */
  datatype Extraction = Extraction(labReports: seq<(string, seq<(string, Reading)>)>,
                                   filesProcessed: nat, aliasesLoaded: nat, totalTextLength: nat)

  /** What `extract_lab_report` answers: the extraction, or the status code of the error it raises. */
  function Extract(files: seq<Upload>, aliases: seq<(string, string)>, units: map<string, seq<string>>,
                   doc: DocumentOcr, img: ImageOcr): Result<Extraction, int>
  {
    if files == [] then Err(400)
    else
      match FullText(files, doc, img)
      case Err(code) => Err(code)
      case Ok(text) =>
        Ok(Extraction(Layout(EmptyLabReports(CanonicalPanels), CanonicalPanels, Found(aliases, text, units)),
                      |files|, |aliases|, |text|))
  }

  /**
   * No file is a 400; otherwise the first file of an unsupported type is a
   * 400 and the first failed OCR a 502. A success lays out every canonical
   * panel, each marker with the reading of its first matching alias or a
   * blank one, and counts the files, the aliases and the text.
   */
  lemma ExtractSpec(files: seq<Upload>, aliases: seq<(string, string)>, units: map<string, seq<string>>,
                    doc: DocumentOcr, img: ImageOcr)
    ensures files == [] ==> Extract(files, aliases, units, doc, img) == Err(400)
    ensures Extract(files, aliases, units, doc, img).Err? ==>
              files == [] || exists i :: (0 <= i < |files| && FileText(files[i], doc, img) == Err(Extract(files, aliases, units, doc, img).error)
                && forall j :: 0 <= j < i ==> FileText(files[j], doc, img).Ok?)
    ensures Extract(files, aliases, units, doc, img).Ok? <==>
              files != [] && forall i :: 0 <= i < |files| ==> FileText(files[i], doc, img).Ok?
    ensures Extract(files, aliases, units, doc, img).Ok? ==>
              var x := Extract(files, aliases, units, doc, img).value;
              var found := Found(aliases, FullText(files, doc, img).value, units);
              && |x.labReports| == |CanonicalPanels|
              && (forall i :: 0 <= i < |CanonicalPanels| ==> x.labReports[i] == (CanonicalPanels[i].0, FilledPanel(CanonicalPanels[i].1, found)))
              && x.filesProcessed == |files| && x.aliasesLoaded == |aliases|
              && x.totalTextLength == |FullText(files, doc, img).value|
  {
    CollectOk(FileResults(files, doc, img));
    CollectFirstError(FileResults(files, doc, img));
    if Extract(files, aliases, units, doc, img).Ok? {
      CanonicalPanelsWellFormed();
      LayoutShape(CanonicalPanels, Found(aliases, FullText(files, doc, img).value, units));
    }
  }

  lemma PagesTextStep(pages: seq<Page>, j: nat)
    requires j < |pages|
    ensures PagesText(pages[..j + 1]) ==
              match PagesText(pages[..j])
              case None => None
              case Some(t) =>
                match PageText(pages[j])
                case None => None
                case Some(x) => Some(t + "\n" + x)
  {
    assert pages[..j + 1][..j] == pages[..j];
  }

  /** The loop over the files and their pages that builds `full_text`. */
  method ReadFiles(files: seq<Upload>, doc: DocumentOcr, img: ImageOcr) returns (r: Result<string, int>)
    ensures r == FullText(files, doc, img)
  {
    var fullText := "";
    ghost var rs := FileResults(files, doc, img);
    for i := 0 to |files|
      invariant Collect(rs[..i]) == Ok(fullText)
    {
      CollectStep(rs, i);
      var text := ReadFile(files[i], doc, img);
      if text.Err? {
        CollectPrefixError(rs, i + 1);
        return Err(text.error);
      }
      fullText := fullText + text.value;
    }
    assert rs[..|rs|] == rs;
    return Ok(fullText);
  }

  /** One file: its type from the lower-cased name, the OCR call for that type, then its pages. */
  method ReadFile(file: Upload, doc: DocumentOcr, img: ImageOcr) returns (r: Result<string, int>)
    ensures r == FileText(file, doc, img)
  {
    var filename := Text.Lower(file.filename);
    var mime: string;
    if Text.EndsWith(filename, ".pdf") {
      mime := "application/pdf";
    } else if IsImageName(filename) {
      mime := "image/" + LastSegment(filename);
    } else {
      return Err(400);
    }
    assert MimeType(filename) == Some(mime);
    var ocrData: Option<seq<Page>>;
    if Text.StartsWith(mime, "application") {
      ocrData := doc(file.content, mime);
    } else {
      ocrData := img(file.content, mime, filename);
    }
    assert ocrData == PagesOf(file, mime, doc, img);
    if ocrData.None? {
      return Err(502);
    }
    var added := ReadPages(ocrData.value);
    if added.None? {
      return Err(502);
    }
    return Ok(added.value);
  }

  /** The loop over the pages of one file, each text after a line break. */
  method ReadPages(pages: seq<Page>) returns (r: Option<string>)
    ensures r == PagesText(pages)
  {
    var added := "";
    for j := 0 to |pages|
      invariant PagesText(pages[..j]) == Some(added)
    {
      PagesTextStep(pages, j);
      var text := PageText(pages[j]);
      if text.None? {
        PagesTextPrefixNone(pages, j + 1);
        return None;
      }
      added := added + "\n" + text.value;
    }
    assert pages[..|pages|] == pages;
    return Some(added);
  }

  lemma {:induction false} PagesTextPrefixNone(pages: seq<Page>, n: nat)
    requires n <= |pages| && PagesText(pages[..n]).None?
    ensures PagesText(pages).None?
  {
    if n < |pages| {
      var prefix := pages[..|pages| - 1];
      assert prefix[..n] == pages[..n];
      PagesTextPrefixNone(prefix, n);
    } else {
      assert pages[..n] == pages;
    }
  }

  /** The layout loop: each marker of each canonical panel assigned its reading inside its panel. */
  method LayOut(reports: seq<(string, seq<(string, Reading)>)>, found: map<string, Reading>)
      returns (labReports: seq<(string, seq<(string, Reading)>)>)
    ensures labReports == Layout(reports, CanonicalPanels, found)
  {
    labReports := reports;
    var panels := CanonicalPanels;
    for i := 0 to |panels|
      invariant labReports == Layout(reports, panels[..i], found)
    {
      assert panels[..i + 1][..i] == panels[..i];
      var (name, markers) := panels[i];
      var panel := PanelNamed(labReports, name);
      ghost var blank := panel;
      for j := 0 to |markers|
        invariant panel == FillPanel(blank, markers[..j], found)
      {
        assert markers[..j + 1][..j] == markers[..j];
        var m := markers[j];
        var data := if m in found then found[m] else NoReading;
        panel := Put(panel, m, data);
      }
      assert markers[..|markers|] == markers;
      labReports := Put(labReports, name, panel);
    }
    assert panels[..|panels|] == panels;
  }

  /** `extract_lab_report`. */
  method ExtractLabReport(files: seq<Upload>, aliases: seq<(string, string)>, units: map<string, seq<string>>,
                          doc: DocumentOcr, img: ImageOcr) returns (r: Result<Extraction, int>)
    ensures r == Extract(files, aliases, units, doc, img)
  {
    if files == [] {
      return Err(400);
    }
    var text := ReadFiles(files, doc, img);
    if text.Err? {
      return Err(text.error);
    }
    var skeleton := BuildEmptyLabReports();
    var found := FindReadings(aliases, text.value, units);
    var labReports := LayOut(skeleton, found);
    return Ok(Extraction(labReports, |files|, |aliases|, |text.value|));
  }
}
