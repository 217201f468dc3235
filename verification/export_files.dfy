/** The files an export leaves behind: their names (built from a base name and the time of the
    export), the statistics file, the MyAnimeList import file, and how `exportMangaList` chains
    the text and CSV files, the MangaUpdates import and the MyAnimeList file. The clock is a
    parameter; the home directory the files go to is not modelled, only the names. */
module ExportFiles {
  import opened Wrappers
  import opened Seqs
  import opened Strings
  import opened Titles
  import opened Export
  import MangaUpdatesClient
  import MangaUpdatesImport

  // ---------------------------------------------------------------------------------------
  // The time stamp.

  /** A local date and time, as `LocalDateTime.now()` reads it. */
  datatype Moment = Moment(year: nat, month: nat, day: nat, hour: nat, minute: nat, second: nat)

  /** A time the clock can show (years of four digits). */
  predicate Valid(m: Moment) {
    && 1 <= m.year <= 9999 && 1 <= m.month <= 12 && 1 <= m.day <= 31
    && m.hour <= 23 && m.minute <= 59 && m.second <= 59
  }

  function Pow10(w: nat): (p: nat)
    ensures p >= 1
  {
    if w == 0 then 1 else 10 * Pow10(w - 1)
  }

  /** The last `w` decimal digits of `n`, zero-padded: a pattern letter repeated `w` times. */
  function Pad(n: nat, w: nat): (s: string)
    ensures |s| == w && AllDigits(s)
  {
    if w == 0 then "" else Pad(n / 10, w - 1) + [DigitChar(n % 10)]
  }

  /** A number below 10^w reads back from its padded digits. */
  lemma {:induction false} PadValue(n: nat, w: nat)
    requires n < Pow10(w)
    ensures DigitsValue(Pad(n, w)) == n
  {
    if w > 0 {
      var s := Pad(n, w);
      assert s[..|s| - 1] == Pad(n / 10, w - 1);
      PadValue(n / 10, w - 1);
    }
  }

  /** Digits are the padding of their own value. */
  lemma {:induction false} ValuePads(s: string)
    requires AllDigits(s)
    ensures DigitsValue(s) < Pow10(|s|)
    ensures Pad(DigitsValue(s), |s|) == s
  {
    if s != [] {
      var init := s[..|s| - 1];
      ValuePads(init);
      var v := DigitsValue(s);
      assert v / 10 == DigitsValue(init) && v % 10 == DigitValue(s[|s| - 1]);
      assert [DigitChar(v % 10)] == [s[|s| - 1]];
      assert init + [s[|s| - 1]] == s;
    }
  }

  /** The fields after the year: an underscore and two digits each. */
  function Fields(xs: seq<nat>): (s: string)
    ensures |s| == 3 * |xs|
  {
    if xs == [] then "" else "_" + Pad(xs[0], 2) + Fields(xs[1..])
  }

  /** Reads fields back: as many groups of an underscore and two digits as the text holds. */
  function ParseFields(s: string): Option<seq<nat>>
    decreases |s|
  {
    if s == [] then Some([])
    else if |s| >= 3 && s[0] == '_' && AllDigits(s[1..3]) then
      match ParseFields(s[3..])
      case None => None
      case Some(xs) => Some([DigitsValue(s[1..3])] + xs)
    else None
  }

  lemma {:induction false} ParseFieldsOfFields(xs: seq<nat>)
    requires forall k :: 0 <= k < |xs| ==> xs[k] < 100
    ensures ParseFields(Fields(xs)) == Some(xs)
    decreases |xs|
  {
    if xs != [] {
      var s := Fields(xs);
      assert s == "_" + Pad(xs[0], 2) + Fields(xs[1..]);
      assert s[1..3] == Pad(xs[0], 2);
      assert s[3..] == Fields(xs[1..]);
      PadValue(xs[0], 2);
      ParseFieldsOfFields(xs[1..]);
      assert [xs[0]] + xs[1..] == xs;
    }
  }

  lemma {:induction false} FieldsOfParseFields(s: string)
    requires ParseFields(s).Some?
    ensures Fields(ParseFields(s).value) == s
    decreases |s|
  {
    if s != [] {
      var xs := ParseFields(s).value;
      FieldsOfParseFields(s[3..]);
      ValuePads(s[1..3]);
      assert xs[0] == DigitsValue(s[1..3]) && xs[1..] == ParseFields(s[3..]).value;
      assert s == "_" + s[1..3] + s[3..];
    }
  }

  /** `DateTimeFormatter.ofPattern("yyyy_MM_dd_HH_mm_ss")`. */
  function Stamp(m: Moment): (s: string)
    requires Valid(m)
    ensures |s| == 19
  {
    Pad(m.year, 4) + Fields([m.month, m.day, m.hour, m.minute, m.second])
  }

  /** Reads a stamp back: four digits, then five fields, naming a valid time. */
  function ParseStamp(s: string): (r: Option<Moment>)
    ensures r.Some? ==> Valid(r.value)
  {
    if |s| >= 4 && AllDigits(s[..4]) then
      match ParseFields(s[4..])
      case None => None
      case Some(xs) =>
        if |xs| != 5 then None
        else
          var m := Moment(DigitsValue(s[..4]), xs[0], xs[1], xs[2], xs[3], xs[4]);
          if Valid(m) then Some(m) else None
    else None
  }

  /** Parsing undoes formatting. */
  lemma ParseStampOfStamp(m: Moment)
    requires Valid(m)
    ensures ParseStamp(Stamp(m)) == Some(m)
  {
    var s := Stamp(m);
    var xs := [m.month, m.day, m.hour, m.minute, m.second];
    assert s[..4] == Pad(m.year, 4);
    assert s[4..] == Fields(xs);
    PadValue(m.year, 4);
    ParseFieldsOfFields(xs);
  }

  /** Formatting undoes parsing: a stamp is the only text that names its time. */
  lemma StampOfParseStamp(s: string)
    requires ParseStamp(s).Some?
    ensures Stamp(ParseStamp(s).value) == s
  {
    var m := ParseStamp(s).value;
    ValuePads(s[..4]);
    FieldsOfParseFields(s[4..]);
    assert ParseFields(s[4..]).value == [m.month, m.day, m.hour, m.minute, m.second];
    assert s == s[..4] + s[4..];
  }

  /** Exports started in different seconds get different stamps. */
  lemma StampsDiffer(m: Moment, n: Moment)
    requires Valid(m) && Valid(n) && m != n
    ensures Stamp(m) != Stamp(n)
  {
    ParseStampOfStamp(m);
    ParseStampOfStamp(n);
  }

  // ---------------------------------------------------------------------------------------
  // File names.

  /** The base name every export uses unless told otherwise. */
  const DefaultBase: string := "My_MangaDex_Follows"

  /** A file the export creates: its name and what it ends up holding. */
  datatype File = File(name: string, text: string)

  function Names(files: seq<File>): seq<string> {
    MapSeq((f: File) => f.name, files)
  }

  /** `writeToFile`'s and `writeToTextFile`'s names: the base, the kind, the stamp, ".txt". */
  function TextFileName(base: string, kind: string, stamp: string): string {
    base + "_" + kind + "_" + stamp + ".txt"
  }

  /** Two texts framed alike are equal exactly when the framed parts are. */
  lemma FramedDiffer(pre: string, a: string, b: string, post: string)
    ensures pre + a + post == pre + b + post <==> a == b
  {
    if pre + a + post == pre + b + post {
      assert |a| == |b|;
      assert a == (pre + a + post)[|pre|..|pre| + |a|];
      assert b == (pre + b + post)[|pre|..|pre| + |b|];
    }
  }

  /** The names of one export, kinds apart, differ exactly where their kinds do. */
  lemma TextFileNamesDiffer(base: string, a: string, b: string, stamp: string)
    ensures TextFileName(base, a, stamp) == TextFileName(base, b, stamp) <==> a == b
  {
    var pre := base + "_";
    var post := "_" + stamp + ".txt";
    assert TextFileName(base, a, stamp) == pre + a + post;
    assert TextFileName(base, b, stamp) == pre + b + post;
    FramedDiffer(pre, a, b, post);
  }

  /** `exportMangaList`'s file-name ending as written: `"_" + stamp`, which the names then put
      after another underscore. */
  function ListFileEnd(stamp: string): string {
    "_" + stamp
  }

  /** The titles file of `exportMangaList` as written: `"${fileName}_$fileNameEnd.txt"`. */
  function ListTitlesNameAsWritten(base: string, stamp: string): string {
    base + "_" + ListFileEnd(stamp) + ".txt"
  }

  /** A link file of `exportMangaList` as written: `"${fileName}_${name}_$fileNameEnd.txt"`. */
  function ListLinkNameAsWritten(base: string, l: Link, stamp: string): string {
    base + "_" + l.Name() + "_" + ListFileEnd(stamp) + ".txt"
  }

  /** The CSV file of `exportMangaList` as written: `"${fileName}_$fileNameEnd.csv"`. */
  function ListCsvNameAsWritten(base: string, stamp: string): string {
    base + "_" + ListFileEnd(stamp) + ".csv"
  }

  /** What `exportMangaList`'s names put before the stamp: two underscores as written (the
      template's own and the one `fileNameEnd` starts with). */
  const ListSeparator: string := "__"
  /** The one underscore of the documented "[fileName]_yyyy_MM_dd_HH_mm_ss.{format}". */
  const DocumentedSeparator: string := "_"

  /** The titles file of a list export whose names put `sep` before the stamp. */
  function ListTitlesName(base: string, sep: string, stamp: string): string {
    base + sep + stamp + ".txt"
  }

  /** A link file of a list export: the link's name follows "[fileName]_". */
  function ListLinkName(base: string, sep: string, l: Link, stamp: string): string {
    base + "_" + l.Name() + sep + stamp + ".txt"
  }

  function ListCsvName(base: string, sep: string, stamp: string): string {
    base + sep + stamp + ".csv"
  }

  /** The MyAnimeList file: `"${fileName}_<stamp>.xml"`, one underscore. */
  function MalFileName(base: string, stamp: string): string {
    base + "_" + stamp + ".xml"
  }

  /** The name templates as written are the names with two underscores before the stamp: a list
      exported at 2024-01-02 03:04:05 goes to "F__2024_01_02_03_04_05.txt" rather than
      "F_2024_01_02_03_04_05.txt"; and where the documented name holds the stamp, the name as
      written holds no stamp at all. */
  lemma ListNamesDoubleUnderscore(base: string, l: Link, m: Moment)
    requires Valid(m)
    ensures var stamp := Stamp(m);
            && ListTitlesNameAsWritten(base, stamp) == ListTitlesName(base, ListSeparator, stamp)
            && ListLinkNameAsWritten(base, l, stamp) == ListLinkName(base, ListSeparator, l, stamp)
            && ListCsvNameAsWritten(base, stamp) == ListCsvName(base, ListSeparator, stamp)
            && ListTitlesNameAsWritten(base, stamp) != ListTitlesName(base, DocumentedSeparator, stamp)
            && ParseStamp(StampSlot(base, ListTitlesNameAsWritten(base, stamp))).None?
  {
    var stamp := Stamp(m);
    AppendAssoc(base, "_", "_" + stamp);
    AppendAssoc(base + "_" + l.Name(), "_", "_" + stamp);
    var name := ListTitlesNameAsWritten(base, stamp);
    assert name == base + "__" + stamp + ".txt";
    assert name[|base| + 1] == '_';
    assert StampSlot(base, name)[0] == '_';
    assert !IsDigit(StampSlot(base, name)[..4][0]);
  }

  /** Where a name of base `base` holds its stamp when "[fileName]_" comes first: the 19
      characters after it (empty for a name too short to hold one). */
  function StampSlot(base: string, name: string): string {
    if |base| + 20 <= |name| then name[|base| + 1..|base| + 20] else ""
  }

  /** Corrected, every name of one list export holds the time of the export right after
      "[fileName]_", as the MyAnimeList file of that moment does. */
  lemma DocumentedNamesHoldTheStamp(base: string, m: Moment)
    requires Valid(m)
    ensures var stamp := Stamp(m);
            && ParseStamp(StampSlot(base, ListTitlesName(base, DocumentedSeparator, stamp))) == Some(m)
            && ParseStamp(StampSlot(base, ListCsvName(base, DocumentedSeparator, stamp))) == Some(m)
            && ParseStamp(StampSlot(base, MalFileName(base, stamp))) == Some(m)
  {
    var stamp := Stamp(m);
    ParseStampOfStamp(m);
    assert StampSlot(base, ListTitlesName(base, DocumentedSeparator, stamp)) == stamp;
    assert StampSlot(base, ListCsvName(base, DocumentedSeparator, stamp)) == stamp;
    assert StampSlot(base, MalFileName(base, stamp)) == stamp;
  }

  // ---------------------------------------------------------------------------------------
  // The statistics file.

  /** The count recorded for `l` (every listed link has one). */
  function CountOf(nulls: map<Link, int>, l: Link): int {
    if l in nulls then nulls[l] else 0
  }

  function StatsHeader(added: int): string {
    "Titles added: " + IntToString(added) + "\nNull links count:\n"
  }

  /** One entry as `writeToFile` and `writeToTextFile` append it: tab, name, colon, tab, count. */
  function StatsEntry(nulls: map<Link, int>): Link -> string {
    (l: Link) => "\t" + l.Name() + ":\t" + IntToString(CountOf(nulls, l))
  }

  /** The statistics as written: the entries follow each other with no line break. */
  function StatsAsWritten(added: int, links: seq<Link>, nulls: map<Link, int>): string {
    StatsHeader(added) + ConcatMap(StatsEntry(nulls), links)
  }

  /** One entry on a line of its own. */
  function StatsLine(nulls: map<Link, int>): Link -> string {
    (l: Link) => StatsEntry(nulls)(l) + "\n"
  }

  /** The statistics with one line per listed link, as the header's layout evidently intends. */
  function StatsText(added: int, links: seq<Link>, nulls: map<Link, int>): string {
    StatsHeader(added) + ConcatMap(StatsLine(nulls), links)
  }

  /** No entry holds a line break. */
  lemma EntryHasNoBreak(nulls: map<Link, int>, l: Link)
    ensures Count(StatsEntry(nulls)(l), '\n') == 0
  {
    var n := CountOf(nulls, l);
    var digits := NatToString(if n < 0 then -n else n);
    assert '\n' !in digits by {
      forall i | 0 <= i < |digits| ensures digits[i] != '\n' {
        assert IsDigit(digits[i]);
      }
    }
    assert '\n' !in "\t" + l.Name() + ":\t";
  }

  /** As written, all the entries share the header's last line. */
  lemma {:induction false} StatsEntriesShareOneLine(nulls: map<Link, int>, links: seq<Link>)
    ensures Count(ConcatMap(StatsEntry(nulls), links), '\n') == 0
    decreases |links|
  {
    if links != [] {
      var init := links[..|links| - 1];
      StatsEntriesShareOneLine(nulls, init);
      EntryHasNoBreak(nulls, links[|links| - 1]);
      CountAppend(ConcatMap(StatsEntry(nulls), init), StatsEntry(nulls)(links[|links| - 1]), '\n');
    }
  }

  /** Corrected, the entries take one line each. */
  lemma {:induction false} StatsLinesOnePerLink(nulls: map<Link, int>, links: seq<Link>)
    ensures Count(ConcatMap(StatsLine(nulls), links), '\n') == |links|
    decreases |links|
  {
    if links != [] {
      var init := links[..|links| - 1];
      var l := links[|links| - 1];
      StatsLinesOnePerLink(nulls, init);
      EntryHasNoBreak(nulls, l);
      CountSnoc(StatsEntry(nulls)(l), '\n', '\n');
      CountAppend(ConcatMap(StatsLine(nulls), init), StatsLine(nulls)(l), '\n');
    }
  }

  /** The counts an export of `ts` records: per listed link, its listings times the series that
      lack it. */
  function NullCounts(ts: seq<Title>, links: seq<Link>): map<Link, int> {
    map l | l in links :: Count(links, l) * Missing(ts, l)
  }

  // ---------------------------------------------------------------------------------------
  // `writeToFile` and `writeToTextFile`.

  function TextOf(texts: map<Link, string>, l: Link): string {
    if l in texts then texts[l] else ""
  }

  /** The file of link `l`. */
  function LinkFileName(base: string, stamp: string): Link -> string {
    (l: Link) => TextFileName(base, l.Name(), stamp)
  }

  /** The link files, one per link. */
  function LinkFiles(base: string, stamp: string, links: seq<Link>, texts: map<Link, string>): (fs: seq<File>)
    ensures |fs| == |links|
    ensures forall k :: 0 <= k < |links| ==> fs[k] == File(LinkFileName(base, stamp)(links[k]), TextOf(texts, links[k]))
  {
    MapSeq((l: Link) => File(LinkFileName(base, stamp)(l), TextOf(texts, l)), links)
  }

  /** The files of a text export with contents `c` and statistics text `stats`, in creation
      order: the titles file, a file per distinct link, the statistics. */
  function TextFiles(base: string, stamp: string, links: seq<Link>, c: Contents, stats: string): (fs: seq<File>)
    ensures |fs| == |Dedup(links)| + 2
  {
    [File(TextFileName(base, "Titles", stamp), c.titles)]
      + LinkFiles(base, stamp, Dedup(links), c.linkFiles)
      + [File(TextFileName(base, "stats", stamp), stats)]
  }

  /** The files `writeToFile` (with the listed links) and `writeToTextFile` (with the selected
      links in declaration order) create, as written: `PER_LIST` appends a link's buffer once per
      listing, and the statistics entries follow each other on one line. */
  function WriteTextFiles(ts: seq<Title>, base: string, links: seq<Link>, mode: BufferingMode, m: Moment): (fs: seq<File>)
    requires Valid(m)
    ensures |fs| == |Dedup(links)| + 2
  {
    var c := ExportAsWritten(ts, links, true, false, mode);
    TextFiles(base, Stamp(m), links, c, StatsAsWritten(c.titlesAdded, links, c.nullLinks))
  }

  /** The same files as evidently intended: each distinct link's buffer appended once, and one
      statistics line per listed link. */
  function WriteTextFilesCorrected(ts: seq<Title>, base: string, links: seq<Link>, mode: BufferingMode, m: Moment): (fs: seq<File>)
    requires Valid(m)
    ensures |fs| == |Dedup(links)| + 2
  {
    var c := Export.Export(ts, links, true, false, mode);
    TextFiles(base, Stamp(m), links, c, StatsText(c.titlesAdded, links, c.nullLinks))
  }

  /** `writeToTextFile` selects links through an `EnumSet`. */
  function WriteToTextFile(ts: seq<Title>, base: string, selected: set<Link>, mode: BufferingMode, m: Moment): (fs: seq<File>)
    requires Valid(m)
  {
    WriteTextFiles(ts, base, Ordered(selected), mode, m)
  }

  /** The recorded counts are the reference counts. */
  lemma NullLinksAreCounts(ts: seq<Title>, links: seq<Link>, makeTxt: bool, makeCsv: bool, mode: BufferingMode)
    ensures Export.Export(ts, links, makeTxt, makeCsv, mode).nullLinks == NullCounts(ts, links)
  {
    ExportMeetsReference(ts, links, makeTxt, makeCsv, mode);
  }

  /** A list framed by two more elements has no repeats when neither frame occurs in it. */
  lemma NoDupFramed<T>(a: T, xs: seq<T>, b: T)
    requires NoDup(xs) && a !in xs && b !in xs && a != b
    ensures NoDup([a] + xs + [b])
  {
    var ys := [a] + xs + [b];
    forall i, j | 0 <= i < j < |ys| ensures ys[i] != ys[j] {
      if 0 < i && j < |ys| - 1 {
        assert ys[i] == xs[i - 1] && ys[j] == xs[j - 1];
      } else if i == 0 && j < |ys| - 1 {
        assert ys[j] == xs[j - 1];
      } else if 0 < i {
        assert ys[i] == xs[i - 1];
      }
    }
  }

  /** Distinct links have distinct files. */
  lemma LinkFileNamesDistinct(base: string, stamp: string, links: seq<Link>)
    requires NoDup(links)
    ensures NoDup(MapSeq(LinkFileName(base, stamp), links))
  {
    var names := MapSeq(LinkFileName(base, stamp), links);
    forall i, j | 0 <= i < j < |names| ensures names[i] != names[j] {
      TextFileNamesDiffer(base, links[i].Name(), links[j].Name(), stamp);
      NamesIdentify(links[i], links[j]);
    }
  }

  /** No link is called "Titles" or "stats". */
  lemma NoLinkNamedLikeAFile(l: Link)
    ensures l.Name() != "Titles" && l.Name() != "stats"
  {
    match l
    case Amz =>
    case Al =>
    case Ap =>
    case Bw =>
    case Cdj =>
    case Ebj =>
    case Kt =>
    case Mu =>
    case Mal =>
    case Nu =>
    case Engtl => assert "engtl"[0] != "stats"[0];
    case Raw =>
  }

  /** The names of the text files: titles, the link files in order, stats. */
  lemma TextFileNamesLaidOut(base: string, stamp: string, links: seq<Link>, c: Contents, stats: string)
    ensures Names(TextFiles(base, stamp, links, c, stats))
            == [TextFileName(base, "Titles", stamp)] + MapSeq(LinkFileName(base, stamp), Dedup(links))
               + [TextFileName(base, "stats", stamp)]
  {
    var d := Dedup(links);
    var a := [File(TextFileName(base, "Titles", stamp), c.titles)];
    var b := LinkFiles(base, stamp, d, c.linkFiles);
    var z := [File(TextFileName(base, "stats", stamp), stats)];
    var name := (f: File) => f.name;
    assert TextFiles(base, stamp, links, c, stats) == a + b + z;
    MapSeqAppend(name, a + b, z);
    MapSeqAppend(name, a, b);
    assert MapSeq(name, b) == MapSeq(LinkFileName(base, stamp), d);
  }

  /** No link file is named like the titles or the stats file. */
  lemma LinkNamesAvoidFixed(base: string, stamp: string, links: seq<Link>)
    ensures TextFileName(base, "Titles", stamp) !in MapSeq(LinkFileName(base, stamp), links)
    ensures TextFileName(base, "stats", stamp) !in MapSeq(LinkFileName(base, stamp), links)
  {
    var linkNames := MapSeq(LinkFileName(base, stamp), links);
    forall k | 0 <= k < |links|
      ensures linkNames[k] != TextFileName(base, "Titles", stamp)
      ensures linkNames[k] != TextFileName(base, "stats", stamp)
    {
      var name := links[k].Name();
      NoLinkNamedLikeAFile(links[k]);
      TextFileNamesDiffer(base, "Titles", name, stamp);
      TextFileNamesDiffer(base, name, "stats", stamp);
    }
  }

  /** Hence every file of a text export has its own name. */
  lemma TextFileNamesDistinct(base: string, stamp: string, links: seq<Link>, c: Contents, stats: string)
    ensures NoDup(Names(TextFiles(base, stamp, links, c, stats)))
  {
    var d := Dedup(links);
    TextFileNamesLaidOut(base, stamp, links, c, stats);
    LinkFileNamesDistinct(base, stamp, d);
    LinkNamesAvoidFixed(base, stamp, d);
    TextFileNamesDiffer(base, "Titles", "stats", stamp);
    NoDupFramed(TextFileName(base, "Titles", stamp), MapSeq(LinkFileName(base, stamp), d), TextFileName(base, "stats", stamp));
  }

  /** Where each file sits in a text export. */
  lemma TextFilesAt(base: string, stamp: string, links: seq<Link>, c: Contents, stats: string)
    ensures var fs := TextFiles(base, stamp, links, c, stats);
            var d := Dedup(links);
            && fs[0] == File(TextFileName(base, "Titles", stamp), c.titles)
            && (forall k :: 0 <= k < |d| ==> fs[k + 1] == File(LinkFileName(base, stamp)(d[k]), TextOf(c.linkFiles, d[k])))
            && fs[|fs| - 1] == File(TextFileName(base, "stats", stamp), stats)
  {
    var d := Dedup(links);
    var a := [File(TextFileName(base, "Titles", stamp), c.titles)];
    var b := LinkFiles(base, stamp, d, c.linkFiles);
    var z := [File(TextFileName(base, "stats", stamp), stats)];
    var fs := TextFiles(base, stamp, links, c, stats);
    assert fs == a + b + z;
    forall k | 0 <= k < |d| ensures fs[k + 1] == b[k] {
      assert (a + b + z)[k + 1] == b[k];
    }
  }

  /** What `writeToFile` and `writeToTextFile` leave behind: the titles one per line; each
      distinct link's file one line per series and listing, and under `PER_LIST` that as many
      times over as the link is listed; the statistics with all entries on the header's last
      line; all names distinct. */
  lemma WriteTextFilesContents(ts: seq<Title>, base: string, links: seq<Link>, mode: BufferingMode, m: Moment)
    requires Valid(m)
    ensures var fs := WriteTextFiles(ts, base, links, mode, m);
            var d := Dedup(links);
            var stamp := Stamp(m);
            && |fs| == |d| + 2
            && NoDup(Names(fs))
            && fs[0] == File(TextFileName(base, "Titles", stamp), TitleLines(ts))
            && (forall k :: 0 <= k < |d| && mode.PerTitle? ==>
                  fs[k + 1] == File(LinkFileName(base, stamp)(d[k]), LinkLines(ts, d[k], Count(links, d[k]))))
            && (forall k :: 0 <= k < |d| && mode.PerList? ==>
                  fs[k + 1] == File(LinkFileName(base, stamp)(d[k]),
                                    Repeat(LinkLines(ts, d[k], Count(links, d[k])), Count(links, d[k]))))
            && fs[|fs| - 1] == File(TextFileName(base, "stats", stamp), StatsAsWritten(|ts|, links, NullCounts(ts, links)))
  {
    var c := ExportAsWritten(ts, links, true, false, mode);
    var stats := StatsAsWritten(c.titlesAdded, links, c.nullLinks);
    var stamp := Stamp(m);
    var d := Dedup(links);
    AsWrittenTexts(ts, links, mode);
    TextFilesAt(base, stamp, links, c, stats);
    TextFileNamesDistinct(base, stamp, links, c, stats);
    forall k | 0 <= k < |d|
      ensures mode.PerTitle? ==> TextOf(c.linkFiles, d[k]) == LinkLines(ts, d[k], Count(links, d[k]))
      ensures mode.PerList? ==> TextOf(c.linkFiles, d[k]) == Repeat(LinkLines(ts, d[k], Count(links, d[k])), Count(links, d[k]))
    {
      AsWrittenLinkText(ts, links, mode, d[k]);
    }
  }

  /** The titles, counts and series number of the as-written export. */
  lemma AsWrittenTexts(ts: seq<Title>, links: seq<Link>, mode: BufferingMode)
    ensures var c := ExportAsWritten(ts, links, true, false, mode);
            c.titles == TitleLines(ts) && c.titlesAdded == |ts| && c.nullLinks == NullCounts(ts, links)
  {
    var c := ExportAsWritten(ts, links, true, false, mode);
    ExportAsWrittenInEitherMode(ts, links, true, false, mode);
    assert c.nullLinks == NullCounts(ts, links);
  }

  /** The as-written text of one listed link. */
  lemma AsWrittenLinkText(ts: seq<Title>, links: seq<Link>, mode: BufferingMode, l: Link)
    requires l in links
    ensures var text := TextOf(ExportAsWritten(ts, links, true, false, mode).linkFiles, l);
            && (mode.PerTitle? ==> text == LinkLines(ts, l, Count(links, l)))
            && (mode.PerList? ==> text == Repeat(LinkLines(ts, l, Count(links, l)), Count(links, l)))
  {
    ExportAsWrittenInEitherMode(ts, links, true, false, mode);
    RepeatOne(LinkLines(ts, l, Count(links, l)));
  }

  /** The corrected files: each link file one line per series and listing, the statistics one
      line per listed link, all names distinct. */
  lemma WriteTextFilesCorrectedContents(ts: seq<Title>, base: string, links: seq<Link>, mode: BufferingMode, m: Moment)
    requires Valid(m)
    ensures var fs := WriteTextFilesCorrected(ts, base, links, mode, m);
            var d := Dedup(links);
            var stamp := Stamp(m);
            && NoDup(Names(fs))
            && fs[0] == File(TextFileName(base, "Titles", stamp), TitleLines(ts))
            && (forall k :: 0 <= k < |d| ==>
                  fs[k + 1] == File(LinkFileName(base, stamp)(d[k]), LinkLines(ts, d[k], Count(links, d[k]))))
            && fs[|fs| - 1] == File(TextFileName(base, "stats", stamp), StatsText(|ts|, links, NullCounts(ts, links)))
  {
    var c := Export.Export(ts, links, true, false, mode);
    var stats := StatsText(c.titlesAdded, links, c.nullLinks);
    var stamp := Stamp(m);
    var d := Dedup(links);
    assert Exported(c, ts, links, true, false, Once) by {
      ExportMeetsReference(ts, links, true, false, mode);
    }
    NullLinksAreCounts(ts, links, true, false, mode);
    TextFilesAt(base, stamp, links, c, stats);
    TextFileNamesDistinct(base, stamp, links, c, stats);
    forall k | 0 <= k < |d| ensures TextOf(c.linkFiles, d[k]) == LinkLines(ts, d[k], Count(links, d[k])) {
      assert d[k] in links;
      RepeatOne(LinkLines(ts, d[k], Count(links, d[k])));
    }
  }

  /** For `writeToTextFile` every link file has exactly one line per series, in either mode, and
      the statistics hold the series count and every selected link's null count, on one line. */
  lemma WriteToTextFileLinkFiles(ts: seq<Title>, base: string, selected: set<Link>, mode: BufferingMode, m: Moment)
    requires Valid(m)
    ensures |WriteToTextFile(ts, base, selected, mode, m)| == |Ordered(selected)| + 2
    ensures var fs := WriteToTextFile(ts, base, selected, mode, m);
            var links := Ordered(selected);
            && (forall k :: 0 <= k < |links| ==>
                  fs[k + 1] == File(LinkFileName(base, Stamp(m))(links[k]), LinkLines(ts, links[k], 1)))
            && fs[|fs| - 1] == File(TextFileName(base, "stats", Stamp(m)), StatsAsWritten(|ts|, links, NullCounts(ts, links)))
  {
    var links := Ordered(selected);
    var fs := WriteToTextFile(ts, base, selected, mode, m);
    DedupNoDup(links);
    WriteTextFilesContents(ts, base, links, mode, m);
    forall k | 0 <= k < |links|
      ensures fs[k + 1] == File(LinkFileName(base, Stamp(m))(links[k]), LinkLines(ts, links[k], 1))
    {
      CountNoDup(links, links[k]);
      RepeatOne(LinkLines(ts, links[k], 1));
    }
  }

  // ---------------------------------------------------------------------------------------
  // The MyAnimeList import file.

  const MalHeader: string :=
    "<?xml version=\"1.0\" encoding=\"UTF-8\" ?><myanimelist><myinfo><user_export_type>2</user_export_type></myinfo>"
  const MalFooter: string := "</myanimelist>"

  predicate HasMal(t: Title) {
    LinkValue(t, Mal).Some?
  }

  /** The series' MyAnimeList ID: its `mal` link without quotes or whitespace around it. */
  function MalId(t: Title): string {
    Trim(LinkValue(t, Mal).GetOr(""), QuoteOrWhitespace)
  }

  /** The element that imports one series. */
  function MangaElement(id: string): string {
    "<manga><manga_mangadb_id>" + id + "</manga_mangadb_id><update_on_import>1</update_on_import></manga>"
  }

  /** What the loop of `createMALFile` appends for one series: nothing without a `mal` link. */
  function MalEntry(t: Title): string {
    if HasMal(t) then MangaElement(MalId(t)) else ""
  }

  /** The document `createMALFile` writes. */
  function MalXml(ts: seq<Title>): string {
    MalHeader + ConcatMap(MalEntry, ts) + MalFooter
  }

  /** The IDs of the series that have one, in list order. */
  function MalIds(ts: seq<Title>): seq<string> {
    MapSeq(MalId, Filter(HasMal, ts))
  }

  lemma {:induction false} EntriesAreElements(ts: seq<Title>)
    ensures ConcatMap(MalEntry, ts) == ConcatMap(MangaElement, MalIds(ts))
    decreases |ts|
  {
    if ts != [] {
      var t := ts[0];
      var rest := ts[1..];
      EntriesAreElements(rest);
      assert ts == [t] + rest;
      ConcatMapAppend(MalEntry, [t], rest);
      ConcatMapOne(MalEntry, t);
      var head := if HasMal(t) then [t] else [];
      assert Filter(HasMal, ts) == head + Filter(HasMal, rest);
      MapSeqAppend(MalId, head, Filter(HasMal, rest));
      var ids := MapSeq(MalId, head);
      ConcatMapAppend(MangaElement, ids, MalIds(rest));
      if HasMal(t) {
        assert ids == [MalId(t)];
        ConcatMapOne(MangaElement, MalId(t));
      } else {
        assert ids == [];
      }
    }
  }

  /** The document lists exactly the series with a `mal` link, in order, one element each. */
  lemma MalXmlListsLinkedSeries(ts: seq<Title>)
    ensures MalXml(ts) == MalHeader + ConcatMap(MangaElement, MalIds(ts)) + MalFooter
    ensures |MalIds(ts)| <= |ts|
  {
    EntriesAreElements(ts);
  }

  /** The IDs carry no quotes or whitespace at either end. */
  lemma MalIdsTrimmed(t: Title)
    ensures var id := MalId(t); id != [] ==> !QuoteOrWhitespace(id[0]) && !QuoteOrWhitespace(id[|id| - 1])
  {
    TrimDrops(LinkValue(t, Mal).GetOr(""), QuoteOrWhitespace);
  }

  // ---------------------------------------------------------------------------------------
  // `exportMangaList`.

  /** `ExportOptions`. */
  datatype ExportOption = Txt | Csv | MangaUpdates | MyAnimeList

  /** `MangaUpdatesImportMethod`. */
  datatype ImportMethod = ById | ByTitle

  /** What `exportMangaList` did: the files it created, the MangaUpdates import if it ran, and
      how it ended (an exception of the import ends it). */
  datatype ListExport = ListExport(files: seq<File>, muImport: Option<MangaUpdatesImport.Run>,
                                   outcome: MangaUpdatesClient.Outcome<()>)

  /** The text files of `exportMangaList` with contents `c`, named with separator `sep`: the
      titles file, then one file per selected link. */
  function ListTextFiles(base: string, sep: string, stamp: string, links: seq<Link>, c: Contents): (fs: seq<File>)
    ensures |fs| == |links| + 1
  {
    [File(ListTitlesName(base, sep, stamp), c.titles)]
      + MapSeq((l: Link) => File(ListLinkName(base, sep, l, stamp), TextOf(c.linkFiles, l)), links)
  }

  /** The text files when asked for, then the CSV when asked for. */
  function ListFilesOf(base: string, sep: string, stamp: string, links: seq<Link>, makeTxt: bool, makeCsv: bool,
                       c: Contents): seq<File>
  {
    (if makeTxt then ListTextFiles(base, sep, stamp, links, c) else [])
      + (if makeCsv then [File(ListCsvName(base, sep, stamp), c.csv)] else [])
  }

  function ListFiles(ts: seq<Title>, base: string, sep: string, links: seq<Link>, makeTxt: bool, makeCsv: bool,
                     mode: BufferingMode, stamp: string): seq<File>
  {
    ListFilesOf(base, sep, stamp, links, makeTxt, makeCsv, Export.Export(ts, links, makeTxt, makeCsv, mode))
  }

  /** How `exportMangaList` goes on after its files: the MangaUpdates import when asked for (a
      missing client throws), then the MyAnimeList file -- unless the import did not finish. */
  function Chain(files: seq<File>, mal: seq<File>, importAsked: bool, hasClient: bool,
                 run: MangaUpdatesImport.Run): (r: ListExport)
    ensures files <= r.files
    ensures r.outcome.Done? <==> (importAsked ==> hasClient && run.outcome.Done?)
    ensures r.outcome.Done? ==> r.files == files + mal
    ensures !r.outcome.Done? ==> r.files == files
    ensures r.muImport.Some? <==> importAsked && hasClient
    ensures r.muImport.Some? ==> r.muImport.value == run && r.outcome == run.outcome
    ensures importAsked && !hasClient ==> r.outcome == MangaUpdatesClient.Threw(MangaUpdatesClient.NullPointer)
  {
    if !importAsked then ListExport(files + mal, None, MangaUpdatesClient.Done(()))
    else if !hasClient then ListExport(files, None, MangaUpdatesClient.Threw(MangaUpdatesClient.NullPointer))
    else if run.outcome.Done? then ListExport(files + mal, Some(run), run.outcome)
    else ListExport(files, Some(run), run.outcome)
  }

  /** `exportMangaList`: the text and CSV files the options ask for (named with the clock reading
      `m`, the links in declaration order), then the MangaUpdates import by the chosen method, then
      the MyAnimeList file (named with the later reading `later`). */
  function ExportMangaList(ts: seq<Title>, base: string, selected: set<Link>, options: set<ExportOption>,
                           mode: BufferingMode, hasClient: bool, importMethod: ImportMethod,
                           script: seq<MangaUpdatesClient.Response>, m: Moment, later: Moment): (r: ListExport)
    requires Valid(m) && Valid(later)
  {
    var files := ListFiles(ts, base, ListSeparator, Ordered(selected), Txt in options, Csv in options, mode, Stamp(m));
    var mal := if MyAnimeList in options then [File(MalFileName(base, Stamp(later)), MalXml(ts))] else [];
    var run := if importMethod.ById? then MangaUpdatesImport.ImportById(ts, script) else MangaUpdatesImport.ImportByTitle(ts, script);
    Chain(files, mal, MangaUpdates in options, hasClient, run)
  }

  /** The MyAnimeList file is written exactly when asked for and no MangaUpdates import before it
      failed; the text and CSV files are written in every case. */
  lemma MalFileOnlyAfterImport(ts: seq<Title>, base: string, selected: set<Link>, options: set<ExportOption>,
                               mode: BufferingMode, hasClient: bool, importMethod: ImportMethod,
                               script: seq<MangaUpdatesClient.Response>, m: Moment, later: Moment)
    requires Valid(m) && Valid(later)
    ensures var r := ExportMangaList(ts, base, selected, options, mode, hasClient, importMethod, script, m, later);
            var files := ListFiles(ts, base, ListSeparator, Ordered(selected), Txt in options, Csv in options, mode, Stamp(m));
            var mal := File(MalFileName(base, Stamp(later)), MalXml(ts));
            && files <= r.files
            && (r.outcome.Done? <==> (MangaUpdates in options ==> hasClient && r.muImport.Some? && r.muImport.value.outcome.Done?))
            && (r.outcome.Done? && MyAnimeList in options <==> r.files == files + [mal])
  {
    var r := ExportMangaList(ts, base, selected, options, mode, hasClient, importMethod, script, m, later);
    var files := ListFiles(ts, base, ListSeparator, Ordered(selected), Txt in options, Csv in options, mode, Stamp(m));
    var mal := File(MalFileName(base, Stamp(later)), MalXml(ts));
    assert |files + [mal]| != |files|;
  }

  /** The titles file's name is shorter than any link file's. */
  lemma TitlesNameShorter(base: string, sep: string, stamp: string, l: Link)
    ensures |ListTitlesName(base, sep, stamp)| < |ListLinkName(base, sep, l, stamp)|
  {
    assert |l.Name()| >= 2;
  }

  /** Link files of distinct links have distinct names. */
  lemma ListLinkNamesDistinct(base: string, sep: string, stamp: string, links: seq<Link>)
    requires NoDup(links)
    ensures NoDup(MapSeq((l: Link) => ListLinkName(base, sep, l, stamp), links))
  {
    var names := MapSeq((l: Link) => ListLinkName(base, sep, l, stamp), links);
    forall i, j | 0 <= i < j < |names| ensures names[i] != names[j] {
      ListLinkNameFramed(base, sep, links[i], stamp);
      ListLinkNameFramed(base, sep, links[j], stamp);
      FramedDiffer(base + "_", links[i].Name(), links[j].Name(), sep + stamp + ".txt");
      NamesIdentify(links[i], links[j]);
    }
  }

  /** A link file's name is the link's name framed by "[fileName]_" and what follows it. */
  lemma ListLinkNameFramed(base: string, sep: string, l: Link, stamp: string)
    ensures ListLinkName(base, sep, l, stamp) == base + "_" + l.Name() + (sep + stamp + ".txt")
  {
    var x := base + "_" + l.Name();
    AppendAssoc(x, sep, stamp);
    AppendAssoc(x, sep + stamp, ".txt");
  }

  /** The names of the text files: the titles file, then the link files in order. */
  lemma ListTextNamesLaidOut(base: string, sep: string, stamp: string, links: seq<Link>, c: Contents)
    ensures Names(ListTextFiles(base, sep, stamp, links, c))
            == [ListTitlesName(base, sep, stamp)] + MapSeq((l: Link) => ListLinkName(base, sep, l, stamp), links)
  {
    var a := [File(ListTitlesName(base, sep, stamp), c.titles)];
    var b := MapSeq((l: Link) => File(ListLinkName(base, sep, l, stamp), TextOf(c.linkFiles, l)), links);
    var name := (f: File) => f.name;
    assert ListTextFiles(base, sep, stamp, links, c) == a + b;
    MapSeqAppend(name, a, b);
    assert MapSeq(name, b) == MapSeq((l: Link) => ListLinkName(base, sep, l, stamp), links);
  }

  /** The files of one list export never share a name, whatever goes before the stamp: as
      written ("__") as well as documented ("_"). */
  lemma ListFileNamesDistinct(base: string, sep: string, stamp: string, links: seq<Link>, makeTxt: bool, makeCsv: bool,
                              c: Contents)
    requires NoDup(links)
    ensures NoDup(Names(ListFilesOf(base, sep, stamp, links, makeTxt, makeCsv, c)))
  {
    var titles := ListTitlesName(base, sep, stamp);
    var csv := ListCsvName(base, sep, stamp);
    var linkNames := MapSeq((l: Link) => ListLinkName(base, sep, l, stamp), links);
    var textNames := [titles] + linkNames;
    ListTextNamesLaidOut(base, sep, stamp, links, c);
    ListLinkNamesDistinct(base, sep, stamp, links);
    forall k | 0 <= k < |links| ensures titles != linkNames[k] {
      TitlesNameShorter(base, sep, stamp, links[k]);
    }
    NoDupAppend([titles], linkNames);
    forall k | 0 <= k < |textNames| ensures textNames[k] != csv {
      assert textNames[k][|textNames[k]| - 1] == 't';
    }
    var txt := if makeTxt then textNames else [];
    var tail := if makeCsv then [csv] else [];
    NoDupAppend(txt, tail);
    var files := ListFilesOf(base, sep, stamp, links, makeTxt, makeCsv, c);
    var textFiles := if makeTxt then ListTextFiles(base, sep, stamp, links, c) else [];
    var csvFiles := if makeCsv then [File(csv, c.csv)] else [];
    MapSeqAppend((f: File) => f.name, textFiles, csvFiles);
    assert Names(files) == txt + tail;
  }

  /** No two files of an `exportMangaList` export collide. */
  lemma ListFilesDistinct(ts: seq<Title>, base: string, sep: string, selected: set<Link>, makeTxt: bool, makeCsv: bool,
                          mode: BufferingMode, stamp: string)
    ensures NoDup(Names(ListFiles(ts, base, sep, Ordered(selected), makeTxt, makeCsv, mode, stamp)))
  {
    var links := Ordered(selected);
    ListFileNamesDistinct(base, sep, stamp, links, makeTxt, makeCsv, Export.Export(ts, links, makeTxt, makeCsv, mode));
  }

  /** Where each text of `c` lands among the text files. */
  lemma ListTextFilesAt(base: string, sep: string, stamp: string, links: seq<Link>, c: Contents)
    ensures var fs := ListTextFiles(base, sep, stamp, links, c);
            && fs[0] == File(ListTitlesName(base, sep, stamp), c.titles)
            && forall k :: 0 <= k < |links| ==> fs[k + 1] == File(ListLinkName(base, sep, links[k], stamp), TextOf(c.linkFiles, links[k]))
  {
    var a := [File(ListTitlesName(base, sep, stamp), c.titles)];
    var b := MapSeq((l: Link) => File(ListLinkName(base, sep, l, stamp), TextOf(c.linkFiles, l)), links);
    var fs := ListTextFiles(base, sep, stamp, links, c);
    assert fs == a + b;
    forall k | 0 <= k < |links| ensures fs[k + 1] == b[k] {
      assert (a + b)[k + 1] == b[k];
    }
  }

  /** The files hold the reference contents, under the names `exportMangaList` gives them: the
      titles one per line, each selected link one line per series, and the CSV its header and one
      row per series. */
  lemma ListFilesContents(ts: seq<Title>, base: string, sep: string, selected: set<Link>, makeTxt: bool, makeCsv: bool,
                          mode: BufferingMode, stamp: string)
    ensures var links := Ordered(selected);
            var c := Export.Export(ts, links, makeTxt, makeCsv, mode);
            var text := ListTextFiles(base, sep, stamp, links, c);
            && ListFiles(ts, base, sep, links, makeTxt, makeCsv, mode, stamp)
               == (if makeTxt then text else [])
                  + (if makeCsv then [File(ListCsvName(base, sep, stamp), CsvHeader(links) + CsvRows(ts, links))] else [])
            && (makeTxt ==> text[0] == File(ListTitlesName(base, sep, stamp), TitleLines(ts)))
            && (makeTxt ==> forall k :: 0 <= k < |links| ==>
                  text[k + 1] == File(ListLinkName(base, sep, links[k], stamp), LinkLines(ts, links[k], 1)))
  {
    var links := Ordered(selected);
    var c := Export.Export(ts, links, makeTxt, makeCsv, mode);
    ListExportTexts(ts, links, makeTxt, makeCsv, mode);
    ListTextFilesAt(base, sep, stamp, links, c);
  }

  /** For a selection without repeats the export holds the titles, one line per series for each
      link, and the reference CSV. */
  lemma ListExportTexts(ts: seq<Title>, links: seq<Link>, makeTxt: bool, makeCsv: bool, mode: BufferingMode)
    requires NoDup(links)
    ensures var c := Export.Export(ts, links, makeTxt, makeCsv, mode);
            && c.csv == (if makeCsv then CsvHeader(links) + CsvRows(ts, links) else "")
            && (makeTxt ==> c.titles == TitleLines(ts))
            && (makeTxt ==> forall k :: 0 <= k < |links| ==> TextOf(c.linkFiles, links[k]) == LinkLines(ts, links[k], 1))
  {
    var c := Export.Export(ts, links, makeTxt, makeCsv, mode);
    assert Exported(c, ts, links, makeTxt, makeCsv, Once) by {
      ExportMeetsReference(ts, links, makeTxt, makeCsv, mode);
    }
    if makeTxt {
      forall k | 0 <= k < |links| ensures TextOf(c.linkFiles, links[k]) == LinkLines(ts, links[k], 1) {
        CountNoDup(links, links[k]);
        RepeatOne(LinkLines(ts, links[k], 1));
      }
    }
  }
}
