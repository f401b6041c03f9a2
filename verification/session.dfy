/** What a change of session does to the application's data: signing in
    loads the user's branding, keys, materials and style library
    (`loadUserData`, src/App.tsx:520-586, run from src/App.tsx:509-518);
    signing out clears the materials and the keys (src/App.tsx:514-516). */
module AppSession {
  import opened Common
  import opened JsText
  import opened Credentials
  import opened PromptComposer
  import opened MaterialStore
  import opened PromptLibrary

  /** The part of the application state that session changes touch. */
  datatype AppState = AppState(
    session: Session,
    keys: ApiKeys,
    brand: BrandConfig,
    materials: seq<Material>,
    library: Library)

  /** A row of `branding_configs`; a null column is the empty string. */
  datatype BrandingRow = BrandingRow(
    primaryBlue: string, primaryGold: string, description: string, pdfName: string, systemPrompt: string)

  /** The store's answers to the four queries of `loadUserData`. */
  datatype BrandingOutcome = BrandingFound(row: BrandingRow) | BrandingMissing
  datatype KeysOutcome = KeysLoaded(rows: seq<KeyRow>) | KeysFailed
  datatype PromptsOutcome = PromptsLoaded(entries: seq<PromptEntry>) | PromptsFailed
  datatype LoadAnswers = LoadAnswers(
    branding: BrandingOutcome, keys: KeysOutcome, materials: LoadOutcome, prompts: PromptsOutcome)

  /** The brand built from a stored row. The object is built afresh, so the
      attached document is dropped; an empty stored style instruction falls
      back to the current one. */
  function BrandFromRow(current: BrandConfig, row: BrandingRow): (b: BrandConfig)
    ensures b.pdfBase64 == ""
    ensures Truthy(b.systemPrompt) <==> Truthy(row.systemPrompt) || Truthy(current.systemPrompt)
    ensures b.systemPrompt == row.systemPrompt || (row.systemPrompt == "" && b.systemPrompt == current.systemPrompt)
    ensures b.(pdfBase64 := "", systemPrompt := "") ==
              BrandConfig(row.primaryBlue, row.primaryGold, row.description, "", row.pdfName, "")
  {
    BrandConfig(row.primaryBlue, row.primaryGold, row.description, "", row.pdfName,
                if Truthy(row.systemPrompt) then row.systemPrompt else current.systemPrompt)
  }

  /** `loadUserData`: without a session nothing happens. Otherwise each of
      the four answers is applied on its own: a failed query keeps that
      part of the state. Stored keys are merged over the current ones, the
      materials and the library entries are replaced, and the selected
      style stays. */
  function LoadUserData(st: AppState, answers: LoadAnswers): (r: AppState)
    ensures st.session.SignedOut? ==> r == st
    ensures r.session == st.session
    ensures st.session.SignedIn? ==>
              && r.brand == (if answers.branding.BrandingFound? then BrandFromRow(st.brand, answers.branding.row) else st.brand)
              && r.materials == Load(st.materials, answers.materials)
              && r.library.selectedId == st.library.selectedId
              && r.library.entries == (if answers.prompts.PromptsLoaded? then answers.prompts.entries else st.library.entries)
    ensures st.session.SignedIn? ==>
              forall p :: KeyOf(r.keys, p) ==
                (if answers.keys.KeysLoaded? then LastValue(answers.keys.rows, p).GetOr(KeyOf(st.keys, p))
                 else KeyOf(st.keys, p))
  {
    if st.session.SignedOut? then st
    else
      var brand := match answers.branding
        case BrandingFound(row) => BrandFromRow(st.brand, row)
        case BrandingMissing => st.brand;
      var keys := match answers.keys
        case KeysLoaded(rows) => MergeKeys(st.keys, rows)
        case KeysFailed => st.keys;
      var entries := match answers.prompts
        case PromptsLoaded(es) => es
        case PromptsFailed => st.library.entries;
      AppState(st.session, keys, brand, Load(st.materials, answers.materials), st.library.(entries := entries))
  }

  /** The session effect: a new session loads the user's data; losing it
      empties the materials and the keys and leaves everything else,
      including the style library and the brand. */
  function SessionChanged(st: AppState, session: Session, answers: LoadAnswers): (r: AppState)
    ensures r.session == session
    ensures session.SignedOut? ==>
              r.materials == [] && r.keys == EmptyKeys && r.brand == st.brand && r.library == st.library
    ensures session.SignedIn? ==> r == LoadUserData(st.(session := session), answers)
  {
    match session
    case SignedOut => st.(session := SignedOut, materials := [], keys := EmptyKeys)
    case SignedIn(_) => LoadUserData(st.(session := session), answers)
  }

  /** After signing out and in again, the keys are exactly the stored ones
      (empty where no row names the provider) and the materials exactly the
      loaded rows: nothing of the previous user survives in either. */
  lemma {:induction false} SignOutThenInForgetsPrevious(st: AppState, userId: string, rows: seq<KeyRow>,
                                                        matRows: seq<MaterialRow>, answers: LoadAnswers)
    requires answers.keys == KeysLoaded(rows) && answers.materials == Loaded(matRows)
    ensures var r := SessionChanged(SessionChanged(st, SignedOut, answers), SignedIn(userId), answers);
      && (forall p :: KeyOf(r.keys, p) == LastValue(rows, p).GetOr(""))
      && r.materials == Load([], Loaded(matRows))
      && r.library.selectedId == st.library.selectedId
  {
    var out := SessionChanged(st, SignedOut, answers);
    assert forall p :: KeyOf(out.keys, p) == "";
  }

  /** With every query failing, signing in changes nothing but the session. */
  lemma {:induction false} FailedLoadKeepsState(st: AppState, userId: string)
    ensures SessionChanged(st, SignedIn(userId), LoadAnswers(BrandingMissing, KeysFailed, LoadFailed, PromptsFailed))
            == st.(session := SignedIn(userId))
  {
  }
}
