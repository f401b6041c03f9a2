/** The style-template library: add (src/App.tsx:654-683), bulk seed
    (src/App.tsx:685-714) and select (src/App.tsx:1379-1386). Entries are kept
    newest first; `selectedId` is the value of the style drop-down. */
module PromptLibrary {
  import opened Common
  import opened JsText
  import opened BuiltinStyles
  import PromptComposer

  /** A row of `prompt_library` as the application holds it. */
  datatype PromptEntry = PromptEntry(id: string, title: string, content: string, description: Option<string>)

  /** The fields sent to the store when a template is inserted. */
  datatype NewPromptRow = NewPromptRow(userId: string, title: string, content: string, description: Option<string>)

  datatype Library = Library(entries: seq<PromptEntry>, selectedId: string)

  /** What the store answered to a single-row insert: the stored row, no
      data and no error, or an error. */
  datatype AddOutcome = AddInserted(row: PromptEntry) | AddNoData | AddFailed

  /** What the store answered to the bulk insert: the inserted rows in order,
      no data and no error, or an error. */
  datatype SeedOutcome = SeedInserted(rows: seq<PromptEntry>) | SeedNoData | SeedFailed

  /** The alert a library action ends with: none (the title dialog was
      cancelled or the import declined), the request to sign in, the success
      message, or the error message. */
  datatype Notice = Quiet | SignInRequired | Done | Failed

  /** The insert `Add` issues, if any: none without a session or when the
      title dialog returned nothing (cancelled or empty). The content is the
      current style instruction. */
  function AddRequest(session: Session, title: Option<string>, description: Option<string>, systemPrompt: string)
    : (req: Option<NewPromptRow>)
    ensures req.Some? <==> session.SignedIn? && title.Some? && Truthy(title.value)
    ensures req.Some? ==> req.value == NewPromptRow(session.userId, title.value, systemPrompt, description)
  {
    if session.SignedOut? || title.None? || !Truthy(title.value) then None
    else Some(NewPromptRow(session.userId, title.value, systemPrompt, description))
  }

  /** Saving the current style instruction to the library. A returned row
      is prepended and becomes the selected template; otherwise the library
      is unchanged. Signed out the user is asked to sign in; a cancelled
      title ends silently; a failed insert reports an error; an insert
      without error reports success, even when it returned no data. */
  function Add(lib: Library, session: Session, title: Option<string>, description: Option<string>,
               systemPrompt: string, outcome: AddOutcome): (r: (Library, Notice))
    ensures r.1 == SignInRequired <==> session.SignedOut?
    ensures r.1 == Quiet <==> session.SignedIn? && (title.None? || !Truthy(title.value))
    ensures r.1 == Failed <==> AddRequest(session, title, description, systemPrompt).Some? && outcome.AddFailed?
    ensures r.1 == Done <==> AddRequest(session, title, description, systemPrompt).Some? && !outcome.AddFailed?
    ensures AddRequest(session, title, description, systemPrompt).None? || !outcome.AddInserted? ==> r.0 == lib
    ensures AddRequest(session, title, description, systemPrompt).Some? && outcome.AddInserted? ==>
              && |r.0.entries| == |lib.entries| + 1
              && r.0.entries[0] == outcome.row && r.0.entries[1..] == lib.entries
              && r.0.selectedId == outcome.row.id
  {
    if session.SignedOut? then (lib, SignInRequired)
    else if AddRequest(session, title, description, systemPrompt).None? then (lib, Quiet)
    else match outcome
      case AddFailed => (lib, Failed)
      case AddNoData => (lib, Done)
      case AddInserted(row) => (Library([row] + lib.entries, row.id), Done)
  }

  /** The rows the bulk seed inserts: every built-in style, in order, owned
      by the signed-in user. */
  function SeedRows(userId: string): (rows: seq<NewPromptRow>)
    ensures |rows| == StyleCount
    ensures forall i :: 0 <= i < |rows| ==>
              rows[i] == NewPromptRow(userId, StyleTitle(i), StyleContent(i), Some(StyleDescription(i)))
  {
    seq(StyleCount, i requires 0 <= i < StyleCount =>
      NewPromptRow(userId, StyleTitle(i), StyleContent(i), Some(StyleDescription(i))))
  }

  /** The batch insert the seed issues: none without a session or when the
      user declined the confirmation. */
  function SeedRequest(session: Session, confirmed: bool): (req: Option<seq<NewPromptRow>>)
    ensures req.Some? <==> session.SignedIn? && confirmed
    ensures req.Some? ==> req.value == SeedRows(session.userId)
  {
    if session.SignedOut? || !confirmed then None else Some(SeedRows(session.userId))
  }

  /** The text of the seed confirmation dialog, split around the number of
      styles it announces. */
  const SeedConfirmLead: string := "Deseja importar os "
  const SeedConfirmCount: string := "11"
  const SeedConfirmTail: string := " estilos de design padrão para sua biblioteca?"
  const SeedConfirmMessage: string := SeedConfirmLead + SeedConfirmCount + SeedConfirmTail

  /** The confirmation announces 11 styles, but the seed inserts 12 rows. */
  lemma {:induction false} SeedMessageUndercounts(userId: string)
    ensures OccursAt(SeedConfirmMessage, "11", |SeedConfirmLead|)
    ensures |SeedRows(userId)| == 12
  {
    assert SeedConfirmMessage[|SeedConfirmLead|..|SeedConfirmLead| + 2] == SeedConfirmCount;
  }

  /** Bulk seeding: all returned rows, in their order, go ahead of the
      existing entries; the selection is untouched. Otherwise the library is
      unchanged. Signed out the user is asked to sign in; a declined
      confirmation ends silently; a failed insert reports an error; an insert
      without error reports success, even when it returned no data. */
  function Seed(lib: Library, session: Session, confirmed: bool, outcome: SeedOutcome): (r: (Library, Notice))
    ensures r.1 == SignInRequired <==> session.SignedOut?
    ensures r.1 == Quiet <==> session.SignedIn? && !confirmed
    ensures r.1 == Failed <==> SeedRequest(session, confirmed).Some? && outcome.SeedFailed?
    ensures r.1 == Done <==> SeedRequest(session, confirmed).Some? && !outcome.SeedFailed?
    ensures SeedRequest(session, confirmed).None? || !outcome.SeedInserted? ==> r.0 == lib
    ensures SeedRequest(session, confirmed).Some? && outcome.SeedInserted? ==>
              && |r.0.entries| == |outcome.rows| + |lib.entries|
              && r.0.entries[..|outcome.rows|] == outcome.rows
              && r.0.entries[|outcome.rows|..] == lib.entries
              && r.0.selectedId == lib.selectedId
  {
    if session.SignedOut? then (lib, SignInRequired)
    else if !confirmed then (lib, Quiet)
    else match outcome
      case SeedFailed => (lib, Failed)
      case SeedNoData => (lib, Done)
      case SeedInserted(rows) => (lib.(entries := rows + lib.entries), Done)
  }

  /** `Array.prototype.find` by id: the first entry carrying `id`. */
  function FindById(entries: seq<PromptEntry>, id: string): (r: Option<PromptEntry>)
    ensures r.None? <==> forall i :: 0 <= i < |entries| ==> entries[i].id != id
    ensures r.Some? ==> exists i :: 0 <= i < |entries| && entries[i] == r.value && r.value.id == id
                                    && forall j :: 0 <= j < i ==> entries[j].id != id
  {
    if entries == [] then None
    else if entries[0].id == id then Some(entries[0])
    else
      var r := FindById(entries[1..], id);
      assert forall i :: 1 <= i < |entries| ==> entries[1..][i - 1] == entries[i];
      r
  }

  /** Choosing a style in the drop-down: the selection always follows the
      choice; when the id is found the brand's style instruction becomes that
      entry's content and nothing else in the brand changes, otherwise the
      brand is unchanged. */
  function Select(lib: Library, brand: PromptComposer.BrandConfig, id: string)
    : (r: (Library, PromptComposer.BrandConfig))
    ensures r.0 == lib.(selectedId := id)
    ensures FindById(lib.entries, id).None? ==> r.1 == brand
    ensures FindById(lib.entries, id).Some? ==>
              r.1 == brand.(systemPrompt := FindById(lib.entries, id).value.content)
  {
    match FindById(lib.entries, id)
    case Some(e) => (lib.(selectedId := id), brand.(systemPrompt := e.content))
    case None => (lib.(selectedId := id), brand)
  }

  /** Selecting an id takes the content of the first entry carrying it; an
      id no entry carries leaves the brand as it was. */
  lemma {:induction false} SelectTakesFirstMatch(lib: Library, brand: PromptComposer.BrandConfig, id: string, i: nat)
    requires i < |lib.entries| && lib.entries[i].id == id
    requires forall j :: 0 <= j < i ==> lib.entries[j].id != id
    ensures Select(lib, brand, id).1 == brand.(systemPrompt := lib.entries[i].content)
  {
    var r := FindById(lib.entries, id);
    var k :| 0 <= k < |lib.entries| && lib.entries[k] == r.value && r.value.id == id
             && forall j :: 0 <= j < k ==> lib.entries[j].id != id;
    assert k == i;
  }

  /** Saving and then choosing the saved row from the drop-down: the new row
      is already selected, and choosing it sets the style instruction to the
      content the store returned, which is the instruction the save sent. */
  lemma {:induction false} AddThenSelect(lib: Library, session: Session, title: Option<string>,
                                         description: Option<string>, systemPrompt: string,
                                         row: PromptEntry, brand: PromptComposer.BrandConfig)
    requires AddRequest(session, title, description, systemPrompt).Some?
    ensures AddRequest(session, title, description, systemPrompt).value.content == systemPrompt
    ensures var r := Add(lib, session, title, description, systemPrompt, AddInserted(row)).0;
      && r.selectedId == row.id
      && Select(r, brand, row.id) == (r, brand.(systemPrompt := row.content))
  {
    var r := Add(lib, session, title, description, systemPrompt, AddInserted(row)).0;
    SelectTakesFirstMatch(r, brand, row.id, 0);
  }

  /** Seeding and then choosing the i-th returned row: when no earlier
      returned row carries the same id, the style instruction becomes that
      row's content; the i-th row sent was the i-th built-in style. */
  lemma {:induction false} SeedThenSelect(lib: Library, session: Session, confirmed: bool,
                                          rows: seq<PromptEntry>, brand: PromptComposer.BrandConfig, i: nat)
    requires SeedRequest(session, confirmed).Some?
    requires i < |rows|
    requires forall j :: 0 <= j < i ==> rows[j].id != rows[i].id
    ensures var r := Seed(lib, session, confirmed, SeedInserted(rows)).0;
      Select(r, brand, rows[i].id).1 == brand.(systemPrompt := rows[i].content)
    ensures i < StyleCount ==> SeedRequest(session, confirmed).value[i].content == StyleContent(i)
  {
    var r := Seed(lib, session, confirmed, SeedInserted(rows)).0;
    assert forall j :: 0 <= j <= i ==> r.entries[j] == rows[j] by {
      forall j | 0 <= j <= i ensures r.entries[j] == rows[j] {
        assert r.entries[..|rows|][j] == rows[j];
      }
    }
    SelectTakesFirstMatch(r, brand, rows[i].id, i);
  }
}
