/** The text the exporter writes for a list of series: the titles file, one file per selected
    link, the CSV and the null-link counts, under either buffering mode. */
module Export {
  import opened Wrappers
  import opened Seqs
  import opened Titles
  import Strings

  /** `BufferingMode`: append per series, or build everything in memory and append once. */
  datatype BufferingMode = PerTitle | PerList

  /** What one export produces before it is put into files: the titles text, the text of each
      link file, the CSV text, the null count of each selected link and the number of series
      added. A text that the export options do not ask for stays empty. */
  datatype Contents = Contents(titles: string, linkFiles: map<Link, string>, csv: string,
                               nullLinks: map<Link, int>, titlesAdded: int)

  /** The keys `associateBy` gives a selection: each selected link once. */
  function Keys(links: seq<Link>): set<Link> {
    set l | l in links
  }

  /** The CSV header: "title," and the selected link names separated by commas. */
  function CsvHeader(links: seq<Link>): string {
    "title," + Strings.Join(LinkNames(links), ",") + "\n"
  }

  // ---------------------------------------------------------------------------------------
  // The loops as written.

  /** The variables the inner `for (link in saveLinks)` loop updates: the null counts, the
      per-link texts (files or buffers) and the CSV text being built. */
  datatype Acc = Acc(nulls: map<Link, int>, texts: map<Link, string>, csv: string)

  predicate HasKeys(a: Acc, links: seq<Link>, makeTxt: bool) {
    forall l :: l in links ==> l in a.nulls && (makeTxt ==> l in a.texts)
  }

  /** One pass of the inner loop body for link `l` of series `t`. */
  function VisitLink(t: Title, l: Link, makeTxt: bool, makeCsv: bool, a: Acc): (r: Acc)
    requires l in a.nulls && (makeTxt ==> l in a.texts)
    ensures r.nulls.Keys == a.nulls.Keys && r.texts.Keys == a.texts.Keys
  {
    var value := LinkValue(t, l);
    var nulls := if value.None? then a.nulls[l := a.nulls[l] + 1] else a.nulls;
    var texts := if makeTxt then a.texts[l := a.texts[l] + LinkLine(t, l)] else a.texts;
    var csv := if makeCsv then a.csv + Cell(t, l) else a.csv;
    Acc(nulls, texts, csv)
  }

  /** The inner loop over the selected links, in order. */
  function VisitLinks(t: Title, links: seq<Link>, makeTxt: bool, makeCsv: bool, a: Acc): (r: Acc)
    requires HasKeys(a, links, makeTxt)
    ensures r.nulls.Keys == a.nulls.Keys && r.texts.Keys == a.texts.Keys
    decreases |links|
  {
    if links == [] then a
    else VisitLink(t, links[|links| - 1], makeTxt, makeCsv, VisitLinks(t, links[..|links| - 1], makeTxt, makeCsv, a))
  }

  /** The loop variables of the outer `for (manga in mangaList)` loop. */
  datatype Progress = Progress(titles: string, acc: Acc, added: int)

  /** The variables before the first series: counts at 0, empty texts for the files the
      options ask for, and the CSV header when a CSV is made. */
  function Initial(links: seq<Link>, makeTxt: bool, makeCsv: bool): (p: Progress)
    ensures HasKeys(p.acc, links, makeTxt)
  {
    Progress("",
             Acc(map l | l in links :: 0,
                 if makeTxt then map l | l in links :: "" else map[],
                 if makeCsv then CsvHeader(links) else ""),
             0)
  }

  /** One series under `PER_TITLE`: its title line, then its links, with the CSV row built in
      `csvLine` and appended once complete. */
  function PerTitleStep(links: seq<Link>, makeTxt: bool, makeCsv: bool, p: Progress, t: Title): (q: Progress)
    requires HasKeys(p.acc, links, makeTxt)
    ensures HasKeys(q.acc, links, makeTxt)
  {
    var titles := if makeTxt then p.titles + t.title + "\n" else p.titles;
    var csvLine := if makeCsv then "" + t.title + "," else "";
    var v := VisitLinks(t, links, makeTxt, makeCsv, p.acc.(csv := csvLine));
    var csv := if makeCsv then p.acc.csv + v.csv + "\n" else p.acc.csv;
    Progress(titles, v.(csv := csv), p.added + 1)
  }

  /** One series under `PER_LIST`: the same, appending straight to the in-memory CSV text. */
  function PerListStep(links: seq<Link>, makeTxt: bool, makeCsv: bool, p: Progress, t: Title): (q: Progress)
    requires HasKeys(p.acc, links, makeTxt)
    ensures HasKeys(q.acc, links, makeTxt)
  {
    var titles := if makeTxt then p.titles + t.title + "\n" else p.titles;
    var csvLines := if makeCsv then p.acc.csv + t.title + "," else p.acc.csv;
    var v := VisitLinks(t, links, makeTxt, makeCsv, p.acc.(csv := csvLines));
    var csv := if makeCsv then v.csv + "\n" else v.csv;
    Progress(titles, v.(csv := csv), p.added + 1)
  }

  /** The outer loop under the chosen mode. */
  function Run(ts: seq<Title>, links: seq<Link>, makeTxt: bool, makeCsv: bool, mode: BufferingMode): (p: Progress)
    ensures HasKeys(p.acc, links, makeTxt)
    decreases |ts|
  {
    if ts == [] then Initial(links, makeTxt, makeCsv)
    else
      var p := Run(ts[..|ts| - 1], links, makeTxt, makeCsv, mode);
      match mode
      case PerTitle => PerTitleStep(links, makeTxt, makeCsv, p, ts[|ts| - 1])
      case PerList => PerListStep(links, makeTxt, makeCsv, p, ts[|ts| - 1])
  }

  /** `PER_LIST`'s closing `for (link in saveLinks)` loop: appends each listed link's buffer to
      its file, once per listing. */
  function Flush(links: seq<Link>, buffers: map<Link, string>, files: map<Link, string>): (r: map<Link, string>)
    requires forall l :: l in links ==> l in buffers && l in files
    ensures r.Keys == files.Keys
    decreases |links|
  {
    if links == [] then files
    else
      var r := Flush(links[..|links| - 1], buffers, files);
      var l := links[|links| - 1];
      r[l := r[l] + buffers[l]]
  }

  /** The export as `writeToFile`, `writeToTextFile` and `exportMangaList` produce it, with
      `PER_LIST`'s flush loop as written. */
  function ExportAsWritten(ts: seq<Title>, links: seq<Link>, makeTxt: bool, makeCsv: bool,
                           mode: BufferingMode): Contents
  {
    var p := Run(ts, links, makeTxt, makeCsv, mode);
    var files :=
      if mode.PerList? && makeTxt then Flush(links, p.acc.texts, map l | l in links :: "") else p.acc.texts;
    Contents(p.titles, files, p.acc.csv, p.acc.nulls, p.added)
  }

  /** The export with `PER_LIST` appending each distinct link's buffer once. */
  function Export(ts: seq<Title>, links: seq<Link>, makeTxt: bool, makeCsv: bool, mode: BufferingMode): Contents
  {
    var p := Run(ts, links, makeTxt, makeCsv, mode);
    var files :=
      if mode.PerList? && makeTxt then Flush(Dedup(links), p.acc.texts, map l | l in links :: "") else p.acc.texts;
    Contents(p.titles, files, p.acc.csv, p.acc.nulls, p.added)
  }

  // ---------------------------------------------------------------------------------------
  // What the export contains.

  /** What an export of `ts` must contain when each selected link's buffer reaches its file
      `flushes(l)` times: the null count of a link listed k times grows by k for every series
      lacking it; a link file receives, per series, one line per listing. */
  ghost predicate Exported(c: Contents, ts: seq<Title>, links: seq<Link>, makeTxt: bool, makeCsv: bool,
                           flushes: Link -> nat)
  {
    && c.titlesAdded == |ts|
    && c.nullLinks.Keys == Keys(links)
    && (forall l :: l in links ==> c.nullLinks[l] == Count(links, l) * Missing(ts, l))
    && (makeTxt ==> c.titles == TitleLines(ts) && c.linkFiles.Keys == Keys(links))
    && (makeTxt ==> forall l :: l in links ==>
          c.linkFiles[l] == Repeat(LinkLines(ts, l, Count(links, l)), flushes(l)))
    && (!makeTxt ==> c.titles == "" && c.linkFiles == map[])
    && c.csv == (if makeCsv then CsvHeader(links) + CsvRows(ts, links) else "")
  }

  /** Every buffer reaches its file once. */
  function Once(l: Link): nat {
    1
  }

  /** How often the as-written flush loop appends the buffer of `l`. */
  function Occurrences(links: seq<Link>): Link -> nat {
    (l: Link) => Count(links, l)
  }


  lemma {:induction false} NullsAt(t: Title, links: seq<Link>, makeTxt: bool, makeCsv: bool, a: Acc, l: Link)
    requires HasKeys(a, links, makeTxt) && l in a.nulls && (makeTxt ==> l in a.texts)
    ensures VisitLinks(t, links, makeTxt, makeCsv, a).nulls[l] == a.nulls[l] + (if LinkValue(t, l).None? then Count(links, l) else 0)
    decreases |links|
  {
    if links == [] {
    } else {
      var init := links[..|links| - 1];
      var last := links[|links| - 1];
      NullsAt(t, init, makeTxt, makeCsv, a, l);
    }
  }

  /** One pass of the inner loop adds a line to the text of its own link only. */
  lemma VisitLinkText(t: Title, k: Link, makeCsv: bool, a: Acc, l: Link)
    requires k in a.nulls && k in a.texts && l in a.texts
    ensures VisitLink(t, k, true, makeCsv, a).texts[l] == a.texts[l] + (if k == l then LinkLine(t, l) else "")
  {
  }

  /** The last pass of the inner loop extends the text of `l` by one line per listing. */
  lemma TextsAtStep(t: Title, links: seq<Link>, makeCsv: bool, a: Acc, l: Link, before: string)
    requires links != [] && HasKeys(a, links, true) && l in a.texts
    requires VisitLinks(t, links[..|links| - 1], true, makeCsv, a).texts[l] == before
    ensures VisitLinks(t, links, true, makeCsv, a).texts[l]
            == before + (if links[|links| - 1] == l then LinkLine(t, l) else "")
  {
  }

  lemma {:induction false} TextsAt(t: Title, links: seq<Link>, makeCsv: bool, a: Acc, l: Link)
    requires HasKeys(a, links, true) && l in a.texts
    ensures VisitLinks(t, links, true, makeCsv, a).texts[l] == a.texts[l] + Repeat(LinkLine(t, l), Count(links, l))
    decreases |links|
  {
    if links != [] {
      var init := links[..|links| - 1];
      var line := LinkLine(t, l);
      var before := Repeat(line, Count(init, l));
      TextsAt(t, init, makeCsv, a, l);
      TextsAtStep(t, links, makeCsv, a, l, a.texts[l] + before);
      if links[|links| - 1] == l {
        RepeatStep(line, Count(init, l), Count(links, l));
        AppendAssoc(a.texts[l], before, line);
      }
    }
  }

  lemma {:induction false} CsvOf(t: Title, links: seq<Link>, makeTxt: bool, makeCsv: bool, a: Acc)
    requires HasKeys(a, links, makeTxt)
    ensures VisitLinks(t, links, makeTxt, makeCsv, a).csv == (if makeCsv then a.csv + CsvCells(t, links) else a.csv)
    decreases |links|
  {
    if links != [] {
      var init := links[..|links| - 1];
      var last := links[|links| - 1];
      CsvOf(t, init, makeTxt, makeCsv, a);
      assert CsvCells(t, links) == CsvCells(t, init) + Cell(t, last);
      AppendAssoc(a.csv, CsvCells(t, init), Cell(t, last));
    }
  }

  lemma {:induction false} TextsKept(t: Title, links: seq<Link>, makeCsv: bool, a: Acc)
    requires HasKeys(a, links, false)
    ensures VisitLinks(t, links, false, makeCsv, a).texts == a.texts
    decreases |links|
  {
    if links != [] {
      TextsKept(t, links[..|links| - 1], makeCsv, a);
    }
  }

  lemma RepeatStep<T>(xs: seq<T>, k: nat, k': nat)
    requires k' == k + 1
    ensures Repeat(xs, k') == Repeat(xs, k) + xs
  {
    RepeatSnoc(xs, k);
  }

  lemma VisitLinkCsvIrrelevant(t: Title, l: Link, makeTxt: bool, makeCsv: bool, a1: Acc, a2: Acc)
    requires l in a1.nulls && (makeTxt ==> l in a1.texts)
    requires a1.nulls == a2.nulls && a1.texts == a2.texts
    ensures VisitLink(t, l, makeTxt, makeCsv, a1).nulls == VisitLink(t, l, makeTxt, makeCsv, a2).nulls
    ensures VisitLink(t, l, makeTxt, makeCsv, a1).texts == VisitLink(t, l, makeTxt, makeCsv, a2).texts
  {
  }

  /** The CSV text being built does not influence the counts or the link texts. */
  lemma {:induction false} CsvIrrelevant(t: Title, links: seq<Link>, makeTxt: bool, makeCsv: bool, a: Acc, c1: string, c2: string)
    requires HasKeys(a, links, makeTxt)
    ensures VisitLinks(t, links, makeTxt, makeCsv, a.(csv := c1)).nulls == VisitLinks(t, links, makeTxt, makeCsv, a.(csv := c2)).nulls
    ensures VisitLinks(t, links, makeTxt, makeCsv, a.(csv := c1)).texts == VisitLinks(t, links, makeTxt, makeCsv, a.(csv := c2)).texts
    decreases |links|
  {
    if links != [] {
      var init := links[..|links| - 1];
      CsvIrrelevant(t, init, makeTxt, makeCsv, a, c1, c2);
      VisitLinkCsvIrrelevant(t, links[|links| - 1], makeTxt, makeCsv,
                             VisitLinks(t, init, makeTxt, makeCsv, a.(csv := c1)),
                             VisitLinks(t, init, makeTxt, makeCsv, a.(csv := c2)));
    }
  }

  /** Both modes advance the loop variables identically for every series. */
  lemma StepsAgree(links: seq<Link>, makeTxt: bool, makeCsv: bool, p: Progress, t: Title)
    requires HasKeys(p.acc, links, makeTxt)
    ensures PerTitleStep(links, makeTxt, makeCsv, p, t) == PerListStep(links, makeTxt, makeCsv, p, t)
  {
    var csvLine := if makeCsv then "" + t.title + "," else "";
    var csvLines := if makeCsv then p.acc.csv + t.title + "," else p.acc.csv;
    var v1 := VisitLinks(t, links, makeTxt, makeCsv, p.acc.(csv := csvLine));
    var v2 := VisitLinks(t, links, makeTxt, makeCsv, p.acc.(csv := csvLines));
    assert v1.nulls == v2.nulls && v1.texts == v2.texts by {
      CsvIrrelevant(t, links, makeTxt, makeCsv, p.acc, csvLine, csvLines);
    }
    if makeCsv {
      var cells := CsvCells(t, links);
      assert v1.csv == csvLine + cells by {
        CsvOf(t, links, makeTxt, makeCsv, p.acc.(csv := csvLine));
      }
      assert v2.csv == csvLines + cells by {
        CsvOf(t, links, makeTxt, makeCsv, p.acc.(csv := csvLines));
      }
      RowJoin(p.acc.csv, t.title, cells);
    } else {
      assert v1.csv == csvLine && v2.csv == csvLines by {
        CsvOf(t, links, makeTxt, makeCsv, p.acc.(csv := csvLine));
        CsvOf(t, links, makeTxt, makeCsv, p.acc.(csv := csvLines));
      }
    }
  }

  /** Appending a row built apart is appending its pieces in place. */
  lemma RowJoin(prefix: string, title: string, cells: string)
    ensures prefix + (("" + title + ",") + cells) + "\n" == ((prefix + title + ",") + cells) + "\n"
  {
    assert "" + title == title;
    AppendAssoc(prefix, title + ",", cells);
    AppendAssoc(prefix, title, ",");
  }

  /** The same row, grouped as `CsvRow` builds it. */
  lemma RowAppend(prefix: string, title: string, cells: string)
    ensures prefix + (("" + title + ",") + cells) + "\n" == prefix + (title + "," + cells + "\n")
  {
    assert "" + title == title;
    AppendAssoc(prefix, title + "," + cells, "\n");
  }

  /** The loop variables do not depend on the buffering mode. */
  lemma {:induction false} RunIgnoresMode(ts: seq<Title>, links: seq<Link>, makeTxt: bool, makeCsv: bool)
    ensures Run(ts, links, makeTxt, makeCsv, PerTitle) == Run(ts, links, makeTxt, makeCsv, PerList)
    decreases |ts|
  {
    if ts != [] {
      RunIgnoresMode(ts[..|ts| - 1], links, makeTxt, makeCsv);
      StepsAgree(links, makeTxt, makeCsv, Run(ts[..|ts| - 1], links, makeTxt, makeCsv, PerTitle), ts[|ts| - 1]);
    }
  }

  lemma MulStep(k: nat, m: nat, m': nat, b: bool)
    requires m' == m + (if b then 1 else 0)
    ensures k * m' == k * m + (if b then k else 0)
  {
  }

  /** After the loop over `ts`, the count of a listed link is the number of series lacking it
      times its listings. */
  lemma {:induction false} RunNullsAt(ts: seq<Title>, links: seq<Link>, makeTxt: bool, makeCsv: bool, l: Link)
    requires l in links
    ensures Run(ts, links, makeTxt, makeCsv, PerTitle).acc.nulls[l] == Count(links, l) * Missing(ts, l)
    decreases |ts|
  {
    if ts != [] {
      var init := ts[..|ts| - 1];
      var t := ts[|ts| - 1];
      var p := Run(init, links, makeTxt, makeCsv, PerTitle);
      RunNullsAt(init, links, makeTxt, makeCsv, l);
      var csvLine := if makeCsv then "" + t.title + "," else "";
      var v := VisitLinks(t, links, makeTxt, makeCsv, p.acc.(csv := csvLine));
      assert Run(ts, links, makeTxt, makeCsv, PerTitle).acc.nulls == v.nulls;
      var k := Count(links, l);
      var b := LinkValue(t, l).None?;
      assert v.nulls[l] == k * Missing(init, l) + (if b then k else 0) by {
        NullsAt(t, links, makeTxt, makeCsv, p.acc.(csv := csvLine), l);
      }
      MulStep(k, Missing(init, l), Missing(ts, l), b);
    }
  }

  /** After the loop over `ts`, the text of a listed link holds each series' line once per
      listing. */
  lemma {:induction false} RunTextsAt(ts: seq<Title>, links: seq<Link>, makeCsv: bool, l: Link)
    requires l in links
    ensures Run(ts, links, true, makeCsv, PerTitle).acc.texts[l] == LinkLines(ts, l, Count(links, l))
    decreases |ts|
  {
    if ts != [] {
      var init := ts[..|ts| - 1];
      var t := ts[|ts| - 1];
      var p := Run(init, links, true, makeCsv, PerTitle);
      RunTextsAt(init, links, makeCsv, l);
      var csvLine := if makeCsv then "" + t.title + "," else "";
      TextsAt(t, links, makeCsv, p.acc.(csv := csvLine), l);
      assert LinkEntry(l, Count(links, l))(t) == Repeat(LinkLine(t, l), Count(links, l));
    }
  }

  /** Without text files, no link text is ever written. */
  lemma {:induction false} RunTextsUntouched(ts: seq<Title>, links: seq<Link>, makeCsv: bool)
    ensures Run(ts, links, false, makeCsv, PerTitle).acc.texts == map[]
    ensures Run(ts, links, false, makeCsv, PerTitle).titles == ""
    decreases |ts|
  {
    if ts != [] {
      var init := ts[..|ts| - 1];
      var t := ts[|ts| - 1];
      var p := Run(init, links, false, makeCsv, PerTitle);
      RunTextsUntouched(init, links, makeCsv);
      var csvLine := if makeCsv then "" + t.title + "," else "";
      TextsKept(t, links, makeCsv, p.acc.(csv := csvLine));
    }
  }

  /** After the loop over `ts`: the counter, the titles text and which texts exist. */
  lemma {:induction false} RunShape(ts: seq<Title>, links: seq<Link>, makeTxt: bool, makeCsv: bool)
    ensures var p := Run(ts, links, makeTxt, makeCsv, PerTitle);
            && p.added == |ts|
            && (makeTxt ==> p.titles == TitleLines(ts))
            && p.acc.nulls.Keys == Keys(links)
            && (makeTxt ==> p.acc.texts.Keys == Keys(links))
    decreases |ts|
  {
    if ts != [] {
      var init := ts[..|ts| - 1];
      var t := ts[|ts| - 1];
      var p := Run(init, links, makeTxt, makeCsv, PerTitle);
      RunShape(init, links, makeTxt, makeCsv);
      if makeTxt {
        AppendAssoc(p.titles, t.title, "\n");
      }
    }
  }

  /** After the loop over `ts`, the CSV text is the header and one row per series. */
  /** One series adds its row to the CSV text. */
  lemma CsvStep(links: seq<Link>, makeTxt: bool, makeCsv: bool, p: Progress, t: Title)
    requires HasKeys(p.acc, links, makeTxt)
    ensures PerTitleStep(links, makeTxt, makeCsv, p, t).acc.csv
            == (if makeCsv then p.acc.csv + CsvRow(links)(t) else p.acc.csv)
  {
    var csvLine := if makeCsv then "" + t.title + "," else "";
    var v := VisitLinks(t, links, makeTxt, makeCsv, p.acc.(csv := csvLine));
    CsvOf(t, links, makeTxt, makeCsv, p.acc.(csv := csvLine));
    if makeCsv {
      var cells := CsvCells(t, links);
      assert v.csv == csvLine + cells;
      assert CsvRow(links)(t) == t.title + "," + cells + "\n";
      RowAppend(p.acc.csv, t.title, cells);
    }
  }

  lemma {:induction false} RunCsv(ts: seq<Title>, links: seq<Link>, makeTxt: bool, makeCsv: bool)
    ensures Run(ts, links, makeTxt, makeCsv, PerTitle).acc.csv
            == (if makeCsv then CsvHeader(links) + CsvRows(ts, links) else "")
    decreases |ts|
  {
    if ts != [] {
      var init := ts[..|ts| - 1];
      var p := Run(init, links, makeTxt, makeCsv, PerTitle);
      RunCsv(init, links, makeTxt, makeCsv);
      CsvStep(links, makeTxt, makeCsv, p, ts[|ts| - 1]);
      if makeCsv {
        AppendAssoc(CsvHeader(links), CsvRows(init, links), CsvRow(links)(ts[|ts| - 1]));
      }
    }
  }

  /** The flush loop as written appends each buffer once per listing of its link. */
  lemma {:induction false} FlushAt(links: seq<Link>, buffers: map<Link, string>, files: map<Link, string>, l: Link)
    requires forall k :: k in links ==> k in buffers && k in files
    requires l in files && l in buffers
    ensures Flush(links, buffers, files)[l] == files[l] + Repeat(buffers[l], Count(links, l))
    decreases |links|
  {
    if links != [] {
      var init := links[..|links| - 1];
      FlushAt(init, buffers, files, l);
      if links[|links| - 1] == l {
        RepeatStep(buffers[l], Count(init, l), Count(links, l));
        AppendAssoc(files[l], Repeat(buffers[l], Count(init, l)), buffers[l]);
      }
    }
  }

  /** Empty files, one per listed link. */
  lemma EmptyFiles(links: seq<Link>)
    ensures (map k | k in links :: "").Keys == Keys(links)
  {
  }

  /** What the loop leaves behind, whichever mode ran it. */
  lemma RunMeetsReference(ts: seq<Title>, links: seq<Link>, makeTxt: bool, makeCsv: bool, mode: BufferingMode, l: Link)
    requires l in links
    ensures var p := Run(ts, links, makeTxt, makeCsv, mode);
            && p.acc.nulls[l] == Count(links, l) * Missing(ts, l)
            && (makeTxt ==> p.acc.texts[l] == LinkLines(ts, l, Count(links, l)))
  {
    RunIgnoresMode(ts, links, makeTxt, makeCsv);
    RunNullsAt(ts, links, makeTxt, makeCsv, l);
    if makeTxt {
      RunTextsAt(ts, links, makeCsv, l);
    }
  }

  /** The parts of the export that do not depend on the flush loop. */
  lemma RunWhole(ts: seq<Title>, links: seq<Link>, makeTxt: bool, makeCsv: bool, mode: BufferingMode)
    ensures var p := Run(ts, links, makeTxt, makeCsv, mode);
            && p.added == |ts|
            && p.titles == (if makeTxt then TitleLines(ts) else "")
            && p.acc.csv == (if makeCsv then CsvHeader(links) + CsvRows(ts, links) else "")
            && p.acc.nulls.Keys == Keys(links)
            && (makeTxt ==> p.acc.texts.Keys == Keys(links))
            && (!makeTxt ==> p.acc.texts == map[])
  {
    RunIgnoresMode(ts, links, makeTxt, makeCsv);
    RunShape(ts, links, makeTxt, makeCsv);
    RunCsv(ts, links, makeTxt, makeCsv);
    if !makeTxt {
      RunTextsUntouched(ts, links, makeCsv);
    }
  }

  /** Both buffering modes write the same titles, link files, CSV and counts, whatever the
      selection: every link file holds one line per series and listing, in order. */
  lemma ExportMeetsReference(ts: seq<Title>, links: seq<Link>, makeTxt: bool, makeCsv: bool, mode: BufferingMode)
    ensures Exported(Export(ts, links, makeTxt, makeCsv, mode), ts, links, makeTxt, makeCsv, Once)
  {
    RunWhole(ts, links, makeTxt, makeCsv, mode);
    EmptyFiles(links);
    var p := Run(ts, links, makeTxt, makeCsv, mode);
    var c := Export(ts, links, makeTxt, makeCsv, mode);
    forall l | l in links
      ensures c.nullLinks[l] == Count(links, l) * Missing(ts, l)
      ensures makeTxt ==> c.linkFiles[l] == Repeat(LinkLines(ts, l, Count(links, l)), Once(l))
    {
      RunMeetsReference(ts, links, makeTxt, makeCsv, mode, l);
      RepeatOne(LinkLines(ts, l, Count(links, l)));
      if mode.PerList? && makeTxt {
        var d := Dedup(links);
        FlushAt(d, p.acc.texts, map k | k in links :: "", l);
        CountNoDup(d, l);
        RepeatOne(p.acc.texts[l]);
        assert "" + p.acc.texts[l] == p.acc.texts[l];
      }
    }
  }

  /** As written, `PER_LIST` appends the buffer of a link once per listing. */
  lemma ExportAsWrittenMeetsReference(ts: seq<Title>, links: seq<Link>, makeTxt: bool, makeCsv: bool)
    ensures Exported(ExportAsWritten(ts, links, makeTxt, makeCsv, PerList), ts, links, makeTxt, makeCsv,
                     Occurrences(links))
  {
    RunWhole(ts, links, makeTxt, makeCsv, PerList);
    EmptyFiles(links);
    var p := Run(ts, links, makeTxt, makeCsv, PerList);
    var c := ExportAsWritten(ts, links, makeTxt, makeCsv, PerList);
    forall l | l in links
      ensures c.nullLinks[l] == Count(links, l) * Missing(ts, l)
      ensures makeTxt ==> c.linkFiles[l] == Repeat(LinkLines(ts, l, Count(links, l)), Occurrences(links)(l))
    {
      RunMeetsReference(ts, links, makeTxt, makeCsv, PerList, l);
      if makeTxt {
        FlushAt(links, p.acc.texts, map k | k in links :: "", l);
        assert "" + Repeat(p.acc.texts[l], Count(links, l)) == Repeat(p.acc.texts[l], Count(links, l));
      }
    }
  }

  /** How often the as-written export appends a link's buffer: once per listing under
      `PER_LIST`, and the file is written directly (once) under `PER_TITLE`. */
  function AsWrittenFlushes(links: seq<Link>, mode: BufferingMode): Link -> nat {
    if mode.PerList? then Occurrences(links) else Once
  }

  /** The as-written export in either mode: `PER_TITLE` writes what the reference says, and
      `PER_LIST` repeats each link's lines once per listing. */
  lemma ExportAsWrittenInEitherMode(ts: seq<Title>, links: seq<Link>, makeTxt: bool, makeCsv: bool, mode: BufferingMode)
    ensures Exported(ExportAsWritten(ts, links, makeTxt, makeCsv, mode), ts, links, makeTxt, makeCsv,
                     AsWrittenFlushes(links, mode))
  {
    if mode.PerList? {
      ExportAsWrittenMeetsReference(ts, links, makeTxt, makeCsv);
    } else {
      assert ExportAsWritten(ts, links, makeTxt, makeCsv, mode) == Export(ts, links, makeTxt, makeCsv, mode);
      ExportMeetsReference(ts, links, makeTxt, makeCsv, mode);
    }
  }

  /** The description pins the contents down: two exports meeting it are equal. */
  lemma ExportedIsUnique(a: Contents, b: Contents, ts: seq<Title>, links: seq<Link>, makeTxt: bool,
                         makeCsv: bool, flushes: Link -> nat)
    requires Exported(a, ts, links, makeTxt, makeCsv, flushes)
    requires Exported(b, ts, links, makeTxt, makeCsv, flushes)
    ensures a == b
  {
    assert a.nullLinks == b.nullLinks;
    assert a.linkFiles == b.linkFiles;
  }

  /** Both buffering modes produce the same export. */
  lemma ModesAgree(ts: seq<Title>, links: seq<Link>, makeTxt: bool, makeCsv: bool)
    ensures Export(ts, links, makeTxt, makeCsv, PerTitle) == Export(ts, links, makeTxt, makeCsv, PerList)
  {
    ExportMeetsReference(ts, links, makeTxt, makeCsv, PerTitle);
    ExportMeetsReference(ts, links, makeTxt, makeCsv, PerList);
    ExportedIsUnique(Export(ts, links, makeTxt, makeCsv, PerTitle), Export(ts, links, makeTxt, makeCsv, PerList),
                     ts, links, makeTxt, makeCsv, Once);
  }

  /** For a selection without repeats (every `EnumSet`), the as-written export is the export. */
  lemma AsWrittenWithoutRepeats(ts: seq<Title>, links: seq<Link>, makeTxt: bool, makeCsv: bool, mode: BufferingMode)
    requires NoDup(links)
    ensures ExportAsWritten(ts, links, makeTxt, makeCsv, mode) == Export(ts, links, makeTxt, makeCsv, mode)
  {
    DedupNoDup(links);
  }

  /** A series whose `mu` link is "x" has "x\nx\n" as its entry while `mu` is listed twice. */
  lemma SampleLines(t: Title)
    requires LinkValue(t, Mu) == Some("x")
    ensures Count([Mu, Mu], Mu) == 2
    ensures LinkLines([t], Mu, 2) == "x\nx\n"
  {
    var links := [Mu, Mu];
    assert links[..1] == [Mu];
    assert [Mu][..0] == [];
    var line := LinkLine(t, Mu);
    assert line == "x\n";
    ConcatMapOne(LinkEntry(Mu, 2), t);
    assert LinkLines([t], Mu, 2) == Repeat(line, 2);
    RepeatOne(line);
  }

  /** As written, `PER_LIST` leaves in the file of a listed link the per-series lines once per
      listing, as many times over as the link is listed. */
  lemma AsWrittenPerListFileAt(ts: seq<Title>, links: seq<Link>, makeCsv: bool, l: Link)
    requires l in links
    ensures ExportAsWritten(ts, links, true, makeCsv, PerList).linkFiles[l]
            == Repeat(LinkLines(ts, l, Count(links, l)), Count(links, l))
  {
    var p := Run(ts, links, true, makeCsv, PerList);
    RunMeetsReference(ts, links, true, makeCsv, PerList, l);
    FlushAt(links, p.acc.texts, map k | k in links :: "", l);
    assert "" + Repeat(p.acc.texts[l], Count(links, l)) == Repeat(p.acc.texts[l], Count(links, l));
  }

  /** Under `PER_TITLE` such a series' `mu` file gets its line once per listing. */
  lemma SamplePerTitle(t: Title)
    requires LinkValue(t, Mu) == Some("x")
    ensures ExportAsWritten([t], [Mu, Mu], true, false, PerTitle).linkFiles[Mu] == "x\nx\n"
  {
    SampleLines(t);
    RunMeetsReference([t], [Mu, Mu], true, false, PerTitle, Mu);
  }

  /** Under `PER_LIST` as written its `mu` buffer is appended once per listing. */
  lemma SamplePerList(t: Title)
    requires LinkValue(t, Mu) == Some("x")
    ensures ExportAsWritten([t], [Mu, Mu], true, false, PerList).linkFiles[Mu] == "x\nx\nx\nx\n"
  {
    var file := LinkLines([t], Mu, Count([Mu, Mu], Mu));
    AsWrittenPerListFileAt([t], [Mu, Mu], false, Mu);
    SampleLines(t);
    RepeatOne(file);
    RepeatStep(file, 1, 2);
  }

  /** As written, listing a link twice makes `PER_LIST` write its file twice over: a series
      whose `mu` link is "x" (`Title("A", Some(map["mu" := "x"]))`, say) yields "x\nx\n" under
      `PER_TITLE` but "x\nx\nx\nx\n" under `PER_LIST`. */
  lemma RepeatedLinkDoublesPerListFile(t: Title)
    requires LinkValue(t, Mu) == Some("x")
    ensures ExportAsWritten([t], [Mu, Mu], true, false, PerTitle).linkFiles[Mu]
            != ExportAsWritten([t], [Mu, Mu], true, false, PerList).linkFiles[Mu]
  {
    SamplePerTitle(t);
    SamplePerList(t);
    assert |"x\nx\n"| != |"x\nx\nx\nx\n"|;
  }

  /** Such a series exists. */
  lemma SampleExists()
    ensures LinkValue(Title("A", Some(map["mu" := "x"])), Mu) == Some("x")
  {
  }
}
