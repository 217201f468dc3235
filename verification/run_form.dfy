/** The Run button of the exporter window and the MangaUpdates settings buttons: the checks a
    run must pass, in the order they are made, the defaults of the numeric fields, and how the
    import-method radio buttons are read, saved and loaded. */
module RunForm {
  import opened Wrappers
  import opened Strings
  import opened Titles
  import opened MangaUpdatesImport
  import opened ExportFiles

  /** Pages of this many series are fetched when the fetch-limit field is empty. */
  const DefaultFetchLimit: int := 100

  /** The fetch starts at this offset when the initial-offset field is empty. */
  const DefaultOffset: int := 0

  /** The base name every export of the window uses. */
  const ExportBase: string := "My_MangaDex_Follows"

  /** `MangaUpdatesImportMethod.entries`, in the order of the radio buttons. */
  const ImportMethods: seq<ImportMethod> := [ById, ByTitle]

  // ---------------------------------------------------------------------------------------
  // The check boxes.

  /** The text of an export option's check box. */
  function Label(o: ExportOption): string {
    match o
    case Txt => "txt"
    case Csv => "csv"
    case MangaUpdates => "MangaUpdates"
    case MyAnimeList => "MyAnimeList"
  }

  /** The constant name of an `ExportOptions` entry. */
  function EnumName(o: ExportOption): string {
    match o
    case Txt => "TXT"
    case Csv => "CSV"
    case MangaUpdates => "MANGAUPDATES"
    case MyAnimeList => "MYANIMELIST"
  }

  /** `uppercase()` of one character, for the letters the labels use. */
  function UpperChar(c: char): char {
    if 'a' <= c <= 'z' then (c as int - 32) as char else c
  }

  /** `uppercase()` on the letters the labels use. */
  function Upper(s: string): (r: string)
    ensures |r| == |s|
  {
    seq(|s|, k requires 0 <= k < |s| => UpperChar(s[k]))
  }

  /** `ExportOptions.entries.find { it.name == name }`. */
  function FindOption(name: string): (r: Option<ExportOption>)
    ensures r.Some? ==> EnumName(r.value) == name
  {
    if name == "TXT" then Some(Txt)
    else if name == "CSV" then Some(Csv)
    else if name == "MANGAUPDATES" then Some(MangaUpdates)
    else if name == "MYANIMELIST" then Some(MyAnimeList)
    else None
  }

  /** Every check box finds the option it stands for, so the lookup never adds `null`. */
  lemma CheckboxFindsOption(o: ExportOption)
    ensures FindOption(Upper(Label(o))) == Some(o)
  {
    match o
    case Txt => assert Upper("txt") == "TXT";
    case Csv => assert Upper("csv") == "CSV";
    case MangaUpdates => assert Upper("MangaUpdates") == "MANGAUPDATES";
    case MyAnimeList => assert Upper("MyAnimeList") == "MYANIMELIST";
  }

  /** Kotlin's `find`: the first element that satisfies `p`. */
  function Find<T>(p: T -> bool, xs: seq<T>): (r: Option<T>)
    ensures r.Some? ==> r.value in xs && p(r.value)
  {
    if xs == [] then None
    else if p(xs[0]) then Some(xs[0])
    else Find(p, xs[1..])
  }

  /** `find` finds something whenever some element satisfies `p`. */
  lemma {:induction false} FindFinds<T>(p: T -> bool, xs: seq<T>, i: nat)
    requires i < |xs| && p(xs[i])
    ensures Find(p, xs).Some?
  {
    if i > 0 && !p(xs[0]) {
      FindFinds(p, xs[1..], i - 1);
    }
  }

  /** `Links.entries.find { it.canonicalName == text }`: the first link kind with that label. */
  function FindLink(text: string): (r: Option<Link>)
    ensures r.Some? ==> r.value.CanonicalName() == text
  {
    Find((l: Link) => l.CanonicalName() == text, AllLinks)
  }

  /** Every link check box finds the link kind it was made from. */
  lemma CheckboxFindsLink(l: Link)
    ensures FindLink(l.CanonicalName()) == Some(l)
  {
    var r := FindLink(l.CanonicalName());
    assert r.Some? by {
      AllLinksByOrdinal(l);
      FindFinds((k: Link) => k.CanonicalName() == l.CanonicalName(), AllLinks, l.Ordinal());
    }
    CanonicalNamesIdentify(r.value, l);
  }

  /** No two link kinds share a check-box label. */
  lemma CanonicalNamesIdentify(a: Link, b: Link)
    ensures a.CanonicalName() == b.CanonicalName() ==> a == b
  {
    if a != b {
      assert a.CanonicalName() != b.CanonicalName() by {
        match a
        case Amz => assert a.CanonicalName()[..2] == "Am";
        case Al => assert a.CanonicalName()[..2] == "An" && a.CanonicalName()[3] == 'L';
        case Ap => assert a.CanonicalName()[..2] == "An" && a.CanonicalName()[3] == 'm';
        case Bw => assert a.CanonicalName()[0] == 'B';
        case Cdj => assert a.CanonicalName()[0] == 'C';
        case Ebj => assert a.CanonicalName()[0] == 'e';
        case Kt => assert a.CanonicalName()[0] == 'K';
        case Mu => assert a.CanonicalName()[..2] == "Ma";
        case Mal => assert a.CanonicalName()[..2] == "My";
        case Nu => assert a.CanonicalName()[0] == 'N';
        case Engtl => assert a.CanonicalName()[0] == 'O';
        case Raw => assert a.CanonicalName()[0] == 'R';
      }
    }
  }

  // ---------------------------------------------------------------------------------------
  // The import-method radio buttons.

  /** `getSelectedIndex`: the first selected button, or -1 when none is. */
  function SelectedIndex(buttons: seq<bool>): (i: int)
    ensures -1 <= i < |buttons|
    ensures i >= 0 ==> buttons[i]
    ensures i >= 0 ==> forall k :: 0 <= k < i ==> !buttons[k]
    ensures i == -1 <==> forall k :: 0 <= k < |buttons| ==> !buttons[k]
  {
    if buttons == [] then -1
    else if buttons[0] then 0
    else
      var rest := SelectedIndex(buttons[1..]);
      assert forall k :: 1 <= k < |buttons| ==> buttons[k] == buttons[1..][k - 1];
      if rest == -1 then -1 else rest + 1
  }

  /** The index the Load button selects: the saved text read as an `Int` (a missing setting
      reads as "null"), or 0 when it is not a number or names no button. */
  function LoadedSelection(saved: Option<string>, size: nat): (i: int)
    requires size > 0
    ensures 0 <= i < size
    ensures ParseInt32(Rendered(saved)).Some? && 0 <= ParseInt32(Rendered(saved)).value < size ==> i == ParseInt32(Rendered(saved)).value
    ensures !(ParseInt32(Rendered(saved)).Some? && 0 <= ParseInt32(Rendered(saved)).value < size) ==> i == 0
  {
    match ParseInt32(Rendered(saved))
    case None => 0
    case Some(v) => if v < 0 || v >= size then 0 else v
  }

  /** The buttons after Load: the group is cleared, then exactly the loaded one is selected. */
  function Loaded(saved: Option<string>, size: nat): (buttons: seq<bool>)
    requires size > 0
    ensures |buttons| == size
  {
    seq(size, k => k == LoadedSelection(saved, size))
  }

  /** Saving the selection and loading it back selects the same button, and a group with no
      selection (saved as "-1") loads as the first button. */
  lemma SaveThenLoad(buttons: seq<bool>)
    requires 0 < |buttons| <= Int32Max
    ensures var i := SelectedIndex(buttons);
            var after := Loaded(Some(IntToString(i)), |buttons|);
            && SelectedIndex(after) == (if i >= 0 then i else 0)
            && forall k :: 0 <= k < |after| ==> (after[k] <==> k == SelectedIndex(after))
  {
    var i := SelectedIndex(buttons);
    ParseInt32OfIntToString(i);
    var j := LoadedSelection(Some(IntToString(i)), |buttons|);
    var after := Loaded(Some(IntToString(i)), |buttons|);
    assert after[j];
  }

  // ---------------------------------------------------------------------------------------
  // The Run button.

  /** What the window holds when Run is pressed. */
  datatype Form = Form(
    running: bool,
    mdUsername: string, mdPassword: string, clientId: string, clientSecret: string,
    checkedOptions: set<ExportOption>, checkedLinks: set<Link>,
    muUsername: string, muPassword: string,
    fetchLimit: string, initialOffset: string,
    locales: seq<string>, importButtons: seq<bool>)

  /** Why a run is refused, each with the line it logs. */
  datatype Rejection =
    | AlreadyRunning
    | MdUsernameEmpty | MdPasswordEmpty | ClientIdEmpty | ClientSecretEmpty
    | NoExportOption
    | MuUsernameEmpty | MuPasswordEmpty
    | FetchLimitNotNumber | OffsetNotNumber
  {
    /** The line logged for the refusal. */
    function Message(): string {
      match this
      case AlreadyRunning => "Already running.\n"
      case MdUsernameEmpty => "MangaDex username is empty.\n"
      case MdPasswordEmpty => "MangaDex password is empty.\n"
      case ClientIdEmpty => "API client id is empty.\n"
      case ClientSecretEmpty => "API client secret is empty.\n"
      case NoExportOption => "No export option selected.\n"
      case MuUsernameEmpty => "MangaUpdates username is empty but MangaUpdates was set as an export option.\n"
      case MuPasswordEmpty => "MangaUpdates password is empty but MangaUpdates was set as an export option.\n"
      case FetchLimitNotNumber => "Fetch limit wasn't set to a number.\n"
      case OffsetNotNumber => "Initial offset wasn't set to a number.\n"
    }

    /** A second run is only a warning; every other refusal is an error. */
    function Kind(): LogType {
      if this.AlreadyRunning? then Warning else Error
    }

    /** The position of the check in the handler. */
    function Rank(): nat {
      match this
      case AlreadyRunning => 0
      case MdUsernameEmpty => 1
      case MdPasswordEmpty => 2
      case ClientIdEmpty => 3
      case ClientSecretEmpty => 4
      case NoExportOption => 5
      case MuUsernameEmpty => 6
      case MuPasswordEmpty => 7
      case FetchLimitNotNumber => 8
      case OffsetNotNumber => 9
    }
  }

  /** Whether the form fails the check behind `q`, judged on its own. */
  predicate Fails(f: Form, q: Rejection) {
    match q
    case AlreadyRunning => f.running
    case MdUsernameEmpty => f.mdUsername == ""
    case MdPasswordEmpty => f.mdPassword == ""
    case ClientIdEmpty => f.clientId == ""
    case ClientSecretEmpty => f.clientSecret == ""
    case NoExportOption => f.checkedOptions == {}
    case MuUsernameEmpty => MangaUpdates in f.checkedOptions && f.muUsername == ""
    case MuPasswordEmpty => MangaUpdates in f.checkedOptions && f.muPassword == ""
    case FetchLimitNotNumber => f.fetchLimit != "" && ParseInt32(f.fetchLimit).None?
    case OffsetNotNumber => f.initialOffset != "" && ParseInt32(f.initialOffset).None?
  }

  /** The MangaDex credentials and the MangaUpdates ones, when MangaUpdates is an option. */
  datatype Credentials = Credentials(username: string, password: string)

  /** What the worker is started with. */
  datatype RunParameters = RunParameters(
    mangadex: Credentials, clientId: string, clientSecret: string,
    fetchLimit: int, initialOffset: int, locales: seq<string>, base: string,
    options: set<ExportOption>, links: set<Link>,
    mangaUpdates: Option<Credentials>, importMethod: ImportMethod)

  /** Pressing Run: refused with a logged line, the worker started, or an exception when no
      import-method button is selected. */
  datatype Press = Refused(reason: Rejection) | Started(parameters: RunParameters) | Threw

  /** A numeric field: empty means the default, otherwise the text must read as an `Int`. */
  function NumberField(text: string, default: int): (r: Option<int>)
    ensures text == "" ==> r == Some(default)
    ensures text != "" ==> r == ParseInt32(text)
  {
    match ParseInt32(text)
    case Some(v) => Some(v)
    case None => if text != "" then None else Some(default)
  }

  /** Every 32-bit value typed into a numeric field is read back. */
  lemma NumberFieldReadsBack(v: int, default: int)
    requires InInt32(v)
    ensures NumberField(IntToString(v), default) == Some(v)
  {
    ParseInt32OfIntToString(v);
  }

  /** The options the loop over the check boxes collects. */
  function CollectOptions(checked: set<ExportOption>): (r: set<ExportOption>)
    ensures r == checked
  {
    forall o | o in checked ensures FindOption(Upper(Label(o))) == Some(o) {
      CheckboxFindsOption(o);
    }
    set o | o in checked && FindOption(Upper(Label(o))).Some? :: FindOption(Upper(Label(o))).value
  }

  /** The links the loop over the link check boxes collects. */
  function CollectLinks(checked: set<Link>): (r: set<Link>)
    ensures r == checked
  {
    forall l | l in checked ensures FindLink(l.CanonicalName()) == Some(l) {
      CheckboxFindsLink(l);
    }
    set l | l in checked && FindLink(l.CanonicalName()).Some? :: FindLink(l.CanonicalName()).value
  }

  /** The Run handler. */
  function Run(f: Form): (r: Press)
  {
    if f.running then Refused(AlreadyRunning)
    else if f.mdUsername == "" then Refused(MdUsernameEmpty)
    else if f.mdPassword == "" then Refused(MdPasswordEmpty)
    else if f.clientId == "" then Refused(ClientIdEmpty)
    else if f.clientSecret == "" then Refused(ClientSecretEmpty)
    else if f.checkedOptions == {} then Refused(NoExportOption)
    else if MangaUpdates in f.checkedOptions && f.muUsername == "" then Refused(MuUsernameEmpty)
    else if MangaUpdates in f.checkedOptions && f.muPassword == "" then Refused(MuPasswordEmpty)
    else
      var mu := if MangaUpdates in f.checkedOptions then Some(Credentials(f.muUsername, f.muPassword)) else None;
      match NumberField(f.fetchLimit, DefaultFetchLimit)
      case None => Refused(FetchLimitNotNumber)
      case Some(limit) =>
        match NumberField(f.initialOffset, DefaultOffset)
        case None => Refused(OffsetNotNumber)
        case Some(offset) =>
          var options := CollectOptions(f.checkedOptions);
          var links := CollectLinks(f.checkedLinks);
          var i := SelectedIndex(f.importButtons);
          if 0 <= i < |ImportMethods| then
            Started(RunParameters(Credentials(f.mdUsername, f.mdPassword), f.clientId, f.clientSecret,
                                  limit, offset, f.locales, ExportBase, options, links, mu, ImportMethods[i]))
          else Threw
  }

  /** A run is refused for the first check, in the handler's order, that the form fails, and
      is let through exactly when it fails none. */
  lemma RunRefusesFirstFailure(f: Form)
    ensures Run(f).Refused? <==> exists q: Rejection :: Fails(f, q)
    ensures Run(f).Refused? ==> Fails(f, Run(f).reason)
    ensures Run(f).Refused? ==> forall q: Rejection :: q.Rank() < Run(f).reason.Rank() ==> !Fails(f, q)
  {
    var r := Run(f);
    if r.Refused? {
      assert Fails(f, r.reason);
    } else {
      forall q: Rejection ensures !Fails(f, q) {
        match q
        case FetchLimitNotNumber => assert NumberField(f.fetchLimit, DefaultFetchLimit).Some?;
        case OffsetNotNumber => assert NumberField(f.initialOffset, DefaultOffset).Some?;
        case _ =>
      }
    }
  }

  /** A started run carries the fields as typed, the defaults for empty numeric fields, the
      checked options and links, the MangaUpdates credentials exactly when MangaUpdates is an
      option, and the chosen import method; the run throws only when no method button is selected. */
  lemma RunStartsWithForm(f: Form)
    requires forall q: Rejection :: !Fails(f, q)
    ensures Run(f).Threw? <==> !(0 <= SelectedIndex(f.importButtons) < |ImportMethods|)
    ensures Run(f).Started? ==>
              var p := Run(f).parameters;
              && p.mangadex == Credentials(f.mdUsername, f.mdPassword)
              && p.clientId == f.clientId && p.clientSecret == f.clientSecret
              && p.fetchLimit == (if f.fetchLimit == "" then DefaultFetchLimit else ParseInt32(f.fetchLimit).value)
              && p.initialOffset == (if f.initialOffset == "" then DefaultOffset else ParseInt32(f.initialOffset).value)
              && p.locales == f.locales && p.base == ExportBase
              && p.options == f.checkedOptions && p.links == f.checkedLinks
              && (p.mangaUpdates.Some? <==> MangaUpdates in f.checkedOptions)
              && (p.mangaUpdates.Some? ==> p.mangaUpdates.value == Credentials(f.muUsername, f.muPassword))
              && p.importMethod == ImportMethods[SelectedIndex(f.importButtons)]
  {
    assert !Fails(f, AlreadyRunning) && !Fails(f, MdUsernameEmpty) && !Fails(f, MdPasswordEmpty);
    assert !Fails(f, ClientIdEmpty) && !Fails(f, ClientSecretEmpty) && !Fails(f, NoExportOption);
    assert !Fails(f, MuUsernameEmpty) && !Fails(f, MuPasswordEmpty);
    assert !Fails(f, FetchLimitNotNumber) && !Fails(f, OffsetNotNumber);
  }
}
