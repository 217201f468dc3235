/** The exported record of one followed series and the link kinds MangaDex stores with it. */
module Titles {
  import opened Wrappers
  import opened Seqs
  import opened Strings

  /** `Utilities.Links`, in declaration order (the order an `EnumSet` iterates in). */
  datatype Link = Amz | Al | Ap | Bw | Cdj | Ebj | Kt | Mu | Mal | Nu | Engtl | Raw {

    /** The enum constant's name, which is also the key MangaDex uses in a series' links. */
    function Name(): string {
      match this
      case Amz => "amz"
      case Al => "al"
      case Ap => "ap"
      case Bw => "bw"
      case Cdj => "cdj"
      case Ebj => "ebj"
      case Kt => "kt"
      case Mu => "mu"
      case Mal => "mal"
      case Nu => "nu"
      case Engtl => "engtl"
      case Raw => "raw"
    }

    /** The label the UI shows on the link's check box. */
    function CanonicalName(): string {
      match this
      case Amz => "Amazon"
      case Al => "AniList"
      case Ap => "Anime-Planet"
      case Bw => "Book Walker"
      case Cdj => "CDJapan"
      case Ebj => "eBookJapan"
      case Kt => "Kitsu"
      case Mu => "MangaUpdates"
      case Mal => "MyAnimeList"
      case Nu => "NovelUpdates"
      case Engtl => "Official English"
      case Raw => "Raws"
    }

    /** Position in the declaration. */
    function Ordinal(): nat {
      match this
      case Amz => 0
      case Al => 1
      case Ap => 2
      case Bw => 3
      case Cdj => 4
      case Ebj => 5
      case Kt => 6
      case Mu => 7
      case Mal => 8
      case Nu => 9
      case Engtl => 10
      case Raw => 11
    }
  }

  /** `Links.entries`. */
  const AllLinks: seq<Link> := [Amz, Al, Ap, Bw, Cdj, Ebj, Kt, Mu, Mal, Nu, Engtl, Raw]

  /** Every link kind appears in `AllLinks` at its ordinal. */
  lemma AllLinksByOrdinal(l: Link)
    ensures l.Ordinal() < |AllLinks| && AllLinks[l.Ordinal()] == l
  {
  }

  /** Distinct link kinds have distinct names, so their files never collide. */
  lemma NamesIdentify(a: Link, b: Link)
    ensures a.Name() == b.Name() ==> a == b
  {
  }

  predicate Ascending(links: seq<Link>) {
    forall i, j :: 0 <= i < j < |links| ==> links[i].Ordinal() < links[j].Ordinal()
  }

  /** The members of `links` that are selected, keeping their order. */
  function Select(links: seq<Link>, selected: set<Link>): (r: seq<Link>)
    requires Ascending(links)
    ensures Ascending(r)
    ensures forall l :: l in r <==> l in links && l in selected
    ensures forall i :: 0 <= i < |r| ==> links != [] && links[0].Ordinal() <= r[i].Ordinal()
  {
    if links == [] then []
    else
      var rest := Select(links[1..], selected);
      if links[0] in selected then [links[0]] + rest else rest
  }

  /** Iteration order of an `EnumSet<Links>`: the selected kinds in declaration order. */
  function Ordered(selected: set<Link>): (r: seq<Link>)
    ensures Ascending(r) && NoDup(r)
    ensures forall l :: l in r <==> l in selected
  {
    forall l | true ensures l in AllLinks {
      AllLinksByOrdinal(l);
    }
    Select(AllLinks, selected)
  }

  /** A series as the exporter sees it: its chosen title and, when MangaDex sent any, its links
      keyed by link name (the value is the text `toString` renders). */
  datatype Title = Title(title: string, links: Option<map<string, string>>)

  /** `manga.links?.get(link.name)`. */
  function LinkValue(t: Title, l: Link): (v: Option<string>)
    ensures v.None? <==> t.links.None? || l.Name() !in t.links.value
  {
    if t.links.Some? && l.Name() in t.links.value then Some(t.links.value[l.Name()]) else None
  }

  // ---------------------------------------------------------------------------------------
  // Reference definitions of the exported text, one title at a time (most recent last).

  /** The titles file: each title on its own line, in list order. */
  function TitleLines(ts: seq<Title>): string {
    ConcatMap(TitleLine, ts)
  }

  /** The line the titles file holds for one series. */
  function TitleLine(t: Title): string {
    t.title + "\n"
  }

  /** The line a link file holds for one series. */
  function LinkLine(t: Title, l: Link): string {
    Rendered(LinkValue(t, l)) + "\n"
  }

  /** What one series contributes to the file of `l` while `l` is listed `copies` times. */
  function LinkEntry(l: Link, copies: nat): Title -> string {
    (t: Title) => Repeat(LinkLine(t, l), copies)
  }

  /** A link file: per series, `copies` copies of its line (exactly one line per series when
      `copies` is 1). */
  function LinkLines(ts: seq<Title>, l: Link, copies: nat): string {
    ConcatMap(LinkEntry(l, copies), ts)
  }

  /** Number of series that have no value for `l`. */
  function Missing(ts: seq<Title>, l: Link): (n: nat)
    ensures n <= |ts|
  {
    if ts == [] then 0 else Missing(ts[..|ts| - 1], l) + (if LinkValue(ts[|ts| - 1], l).None? then 1 else 0)
  }

  /** The CSV cell of one link: its value followed by a comma. */
  function Cell(t: Title, l: Link): string {
    Rendered(LinkValue(t, l)) + ","
  }

  /** `Cell` as a function of the link, for `ConcatMap`. */
  function CsvCell(t: Title): Link -> string {
    (l: Link) => Cell(t, l)
  }

  /** The CSV cells of one series: each selected link's value followed by a comma. */
  function CsvCells(t: Title, links: seq<Link>): string {
    ConcatMap(CsvCell(t), links)
  }

  /** One CSV row: the title, a comma, the cells (so the row ends in a comma), a newline. */
  function CsvRow(links: seq<Link>): Title -> string {
    (t: Title) => t.title + "," + CsvCells(t, links) + "\n"
  }

  function CsvRows(ts: seq<Title>, links: seq<Link>): string {
    ConcatMap(CsvRow(links), ts)
  }

  function LinkNames(links: seq<Link>): (names: seq<string>)
    ensures |names| == |links|
    ensures forall i :: 0 <= i < |links| ==> names[i] == links[i].Name()
  {
    MapSeq((l: Link) => l.Name(), links)
  }

  // ---------------------------------------------------------------------------------------
  // What the reference definitions say line by line.

  /** A series without links has "null" in every column. */
  lemma NoLinksMeansNull(t: Title, l: Link)
    requires t.links.None?
    ensures LinkLine(t, l) == "null\n"
  {
  }

  /** The CSV cells hold one comma-terminated cell per selected link. */
  lemma {:induction false} CsvCellsShape(t: Title, links: seq<Link>)
    ensures |CsvCells(t, links)| >= |links|
    ensures links != [] ==> CsvCells(t, links)[|CsvCells(t, links)| - 1] == ','
    ensures links == [] ==> CsvCells(t, links) == ""
  {
    if links != [] {
      CsvCellsShape(t, links[..|links| - 1]);
    }
  }

  /** The null count of a list is the sum over any split of it. */
  lemma {:induction false} MissingAppend(ts: seq<Title>, us: seq<Title>, l: Link)
    ensures Missing(ts + us, l) == Missing(ts, l) + Missing(us, l)
    decreases |us|
  {
    if us == [] {
      assert ts + us == ts;
    } else {
      var u := us[..|us| - 1];
      assert (ts + us)[..|ts + us| - 1] == ts + u;
      MissingAppend(ts, u, l);
    }
  }
}
