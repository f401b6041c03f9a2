/** The list of generated materials, newest first: creation after a
    generation (src/App.tsx:895-923), optimistic rename with rollback
    (src/App.tsx:764-803), the two-step delete (src/App.tsx:730-756,
    src/App.tsx:1650, src/App.tsx:1668) and loading (src/App.tsx:563-570). */
module MaterialStore {
  import opened Common
  import opened JsText

  /** A generated page as the application holds it; `timestamp` is in
      milliseconds since the epoch. */
  datatype Material = Material(id: string, name: string, html: string, timestamp: int)

  /** A row of `generated_materials`; `createdAt` is the creation time already
      converted to milliseconds. */
  datatype MaterialRow = MaterialRow(id: string, name: string, htmlContent: string, createdAt: int)

  function FromRow(row: MaterialRow): Material {
    Material(row.id, row.name, row.htmlContent, row.createdAt)
  }

  function ToRow(m: Material): MaterialRow {
    MaterialRow(m.id, m.name, m.html, m.timestamp)
  }

  /** The ids of a list, in order. */
  function Ids(ms: seq<Material>): (r: seq<string>)
    ensures |r| == |ms| && forall i :: 0 <= i < |ms| ==> r[i] == ms[i].id
  {
    if ms == [] then [] else [ms[0].id] + Ids(ms[1..])
  }

  /** Newest first: timestamps never increase along the list. */
  predicate NewestFirst(ms: seq<Material>) {
    forall i, j :: 0 <= i < j < |ms| ==> ms[i].timestamp >= ms[j].timestamp
  }

  // ---------------------------------------------------------------- loading

  /** What the store answered to the materials query, ordered by creation
      time, newest first. */
  datatype LoadOutcome = Loaded(rows: seq<MaterialRow>) | LoadFailed

  /** Loading replaces the whole list with the mapped rows; a failed query
      keeps the list. */
  function Load(ms: seq<Material>, outcome: LoadOutcome): (r: seq<Material>)
    ensures outcome.LoadFailed? ==> r == ms
    ensures outcome.Loaded? ==> |r| == |outcome.rows|
    ensures outcome.Loaded? ==> forall i :: 0 <= i < |r| ==> ToRow(r[i]) == outcome.rows[i]
  {
    match outcome
    case LoadFailed => ms
    case Loaded(rows) => seq(|rows|, i requires 0 <= i < |rows| => FromRow(rows[i]))
  }

  /** A material and its row carry the same information. */
  lemma {:induction false} RowRoundTrip(m: Material, row: MaterialRow)
    ensures FromRow(ToRow(m)) == m
    ensures ToRow(FromRow(row)) == row
  {
  }

  /** Rows that arrive newest first give a newest-first list. */
  lemma {:induction false} LoadKeepsNewestFirst(ms: seq<Material>, rows: seq<MaterialRow>)
    requires forall i, j :: 0 <= i < j < |rows| ==> rows[i].createdAt >= rows[j].createdAt
    ensures NewestFirst(Load(ms, Loaded(rows)))
  {
    var r := Load(ms, Loaded(rows));
    assert forall i :: 0 <= i < |r| ==> r[i].timestamp == rows[i].createdAt by {
      forall i | 0 <= i < |r| ensures r[i].timestamp == rows[i].createdAt {
        assert ToRow(r[i]) == rows[i];
      }
    }
  }

  // --------------------------------------------------------------- creation

  /** The insert a creation issues with a session. */
  datatype NewMaterialRow = NewMaterialRow(userId: string, name: string, htmlContent: string)

  /** What the store answered to the insert. */
  datatype InsertOutcome = Inserted(row: MaterialRow) | InsertFailed

  /** The id and clock reading a material gets when it is kept only locally. */
  datatype LocalStamp = LocalStamp(id: string, time: int)

  function CreateRequest(session: Session, name: string, html: string): (req: Option<NewMaterialRow>)
    ensures req.Some? <==> session.SignedIn?
    ensures req.Some? ==> req.value.userId == session.userId && req.value.name == name
                          && req.value.htmlContent == html
  {
    match session
    case SignedOut => None
    case SignedIn(u) => Some(NewMaterialRow(u, name, html))
  }

  /** Recording a generated page. Signed out, a local material is put in
      front; signed in, the row the store returned is put in front, and a
      failed insert leaves the list as it was. */
  function Create(ms: seq<Material>, session: Session, name: string, html: string,
                  insert: InsertOutcome, local: LocalStamp): (r: seq<Material>)
    ensures session.SignedIn? && insert.InsertFailed? ==> r == ms
    ensures session.SignedOut? || insert.Inserted? ==> |r| == |ms| + 1 && r[1..] == ms
    ensures session.SignedOut? ==> r[0] == Material(local.id, name, html, local.time)
    ensures session.SignedIn? && insert.Inserted? ==> ToRow(r[0]) == insert.row
  {
    match session
    case SignedOut => [Material(local.id, name, html, local.time)] + ms
    case SignedIn(_) =>
      match insert
      case InsertFailed => ms
      case Inserted(row) => [FromRow(row)] + ms
  }

  /** Creation never disturbs the existing list: it stays the tail of the result. */
  lemma {:induction false} CreateKeepsOld(ms: seq<Material>, session: Session, name: string, html: string,
                       insert: InsertOutcome, local: LocalStamp)
    ensures var r := Create(ms, session, name, html, insert, local);
      |ms| <= |r| <= |ms| + 1 && r[|r| - |ms|..] == ms
  {
  }

  /** A material stamped no earlier than the current newest keeps the list
      newest first. */
  lemma {:induction false} CreateKeepsNewestFirst(ms: seq<Material>, session: Session, name: string, html: string,
                                                  insert: InsertOutcome, local: LocalStamp)
    requires NewestFirst(ms)
    requires session.SignedOut? ==> |ms| == 0 || local.time >= ms[0].timestamp
    requires session.SignedIn? && insert.Inserted? ==> |ms| == 0 || insert.row.createdAt >= ms[0].timestamp
    ensures NewestFirst(Create(ms, session, name, html, insert, local))
  {
    var r := Create(ms, session, name, html, insert, local);
    if |r| == |ms| + 1 {
      assert r[0].timestamp == (if session.SignedOut? then local.time else insert.row.createdAt);
      forall i, j | 0 <= i < j < |r| ensures r[i].timestamp >= r[j].timestamp {
        assert r[j] == ms[j - 1];
        if i > 0 {
          assert r[i] == ms[i - 1];
        } else {
          assert r[0].timestamp >= ms[0].timestamp;
        }
      }
    }
  }

  // ----------------------------------------------------------------- rename

  /** Every material carrying `id` gets `name`; everything else is kept. */
  function RenameAll(ms: seq<Material>, id: string, name: string): (r: seq<Material>)
    ensures |r| == |ms|
    ensures forall i :: 0 <= i < |ms| ==>
              r[i] == if ms[i].id == id then ms[i].(name := name) else ms[i]
  {
    if ms == [] then [] else
      [if ms[0].id == id then ms[0].(name := name) else ms[0]] + RenameAll(ms[1..], id, name)
  }

  /** The inline name editor: which material is being edited and the text typed. */
  datatype EditState = EditState(editingId: Option<string>, editName: string)

  /** What the store answered to the update: an error, or the rows it changed. */
  datatype UpdateOutcome = UpdateFailed | UpdatedRows(count: nat)

  /** Why a rename was rolled back: the call failed, or it changed no row
      (unknown id, or the row belongs to someone else). */
  datatype RenameError = RemoteCallFailed | NoRowUpdated

  datatype RenameResult = RenameResult(materials: seq<Material>, edit: EditState, error: Option<RenameError>)

  /** Saving the edited name of material `id`. The typed name is trimmed; a
      blank one only closes the editor. Otherwise the list is renamed at once
      and the editor is cleared; with a session, a failed or empty update puts
      back the list exactly as it was before the rename. */
  function Rename(ms: seq<Material>, edit: EditState, session: Session, id: string,
                  update: UpdateOutcome): (r: RenameResult)
    ensures r.edit.editingId.None?
    ensures IsBlank(edit.editName) ==> r == RenameResult(ms, edit.(editingId := None), None)
    ensures !IsBlank(edit.editName) ==> r.edit.editName == ""
    ensures r.error.Some? ==> r.materials == ms
    ensures r.error.Some? <==>
              !IsBlank(edit.editName) && session.SignedIn? && (update.UpdateFailed? || update.count == 0)
    ensures r.error == Some(RemoteCallFailed) <==>
              !IsBlank(edit.editName) && session.SignedIn? && update.UpdateFailed?
    ensures r.error == Some(NoRowUpdated) <==>
              !IsBlank(edit.editName) && session.SignedIn? && update.UpdatedRows? && update.count == 0
    ensures !IsBlank(edit.editName) && r.error.None? ==>
              r.materials == RenameAll(ms, id, Trim(edit.editName))
  {
    var name := Trim(edit.editName);
    if name == "" then RenameResult(ms, edit.(editingId := None), None)
    else
      var closed := EditState(None, "");
      match session
      case SignedOut => RenameResult(RenameAll(ms, id, name), closed, None)
      case SignedIn(_) =>
        match update
        case UpdateFailed => RenameResult(ms, closed, Some(RemoteCallFailed))
        case UpdatedRows(n) =>
          if n == 0 then RenameResult(ms, closed, Some(NoRowUpdated))
          else RenameResult(RenameAll(ms, id, name), closed, None)
  }

  /** A rename changes names only, and only to the trimmed typed name on the
      materials carrying `id`: length, order, ids, pages and timestamps are
      kept, so a newest-first list stays newest first. */
  lemma {:induction false} RenameChangesOnlyNames(ms: seq<Material>, edit: EditState, session: Session,
                                                  id: string, update: UpdateOutcome)
    ensures var r := Rename(ms, edit, session, id, update).materials;
      && |r| == |ms|
      && Ids(r) == Ids(ms)
      && (forall i :: 0 <= i < |ms| ==> r[i].html == ms[i].html && r[i].timestamp == ms[i].timestamp)
      && (forall i :: 0 <= i < |ms| ==>
            r[i].name == ms[i].name || (ms[i].id == id && r[i].name == Trim(edit.editName)))
      && (NewestFirst(ms) ==> NewestFirst(r))
  {
    var r := Rename(ms, edit, session, id, update).materials;
    if r != ms {
      RenameAllKeeps(ms, id, Trim(edit.editName));
    }
  }

  lemma {:induction false} RenameAllKeeps(ms: seq<Material>, id: string, name: string)
    ensures var r := RenameAll(ms, id, name);
      && Ids(r) == Ids(ms)
      && (forall i :: 0 <= i < |ms| ==> r[i].html == ms[i].html && r[i].timestamp == ms[i].timestamp)
      && (forall i :: 0 <= i < |ms| ==> r[i].name == ms[i].name || (ms[i].id == id && r[i].name == name))
      && (NewestFirst(ms) ==> NewestFirst(r))
  {
    var r := RenameAll(ms, id, name);
    assert |Ids(r)| == |Ids(ms)|;
  }

  /** Renaming twice to the same name is the same as renaming once. */
  lemma {:induction false} RenameAllIdempotent(ms: seq<Material>, id: string, name: string)
    ensures RenameAll(RenameAll(ms, id, name), id, name) == RenameAll(ms, id, name)
  {
    var once := RenameAll(ms, id, name);
    var twice := RenameAll(once, id, name);
    assert |twice| == |once|;
    forall i | 0 <= i < |ms| ensures twice[i] == once[i] {
    }
  }

  /** A successful rename gives the matching materials a trimmed, non-empty name. */
  lemma {:induction false} RenamedNameIsTrimmed(ms: seq<Material>, edit: EditState, session: Session,
                                                id: string, update: UpdateOutcome, i: nat)
    requires i < |ms| && ms[i].id == id
    requires Rename(ms, edit, session, id, update).materials != ms
    ensures Rename(ms, edit, session, id, update).materials[i].name == Trim(edit.editName)
    ensures IsTrimmed(Trim(edit.editName)) && Trim(edit.editName) != ""
  {
  }

  // ----------------------------------------------------------------- delete

  /** `ms` without the materials carrying `id`, the others in their order. */
  function RemoveId(ms: seq<Material>, id: string): (r: seq<Material>)
    ensures |r| <= |ms|
    ensures forall m :: m in r <==> m in ms && m.id != id
  {
    if ms == [] then []
    else if ms[0].id == id then RemoveId(ms[1..], id)
    else [ms[0]] + RemoveId(ms[1..], id)
  }

  /** Filtering distributes over concatenation, so the survivors keep their order. */
  lemma {:induction false} RemoveIdAppend(a: seq<Material>, b: seq<Material>, id: string)
    ensures RemoveId(a + b, id) == RemoveId(a, id) + RemoveId(b, id)
    decreases |a|
  {
    if a == [] {
      assert a + b == b;
    } else {
      assert (a + b)[1..] == a[1..] + b;
      RemoveIdAppend(a[1..], b, id);
    }
  }

  /** Removing an id no material carries changes nothing. */
  lemma {:induction false} RemoveAbsentId(ms: seq<Material>, id: string)
    requires forall i :: 0 <= i < |ms| ==> ms[i].id != id
    ensures RemoveId(ms, id) == ms
    decreases |ms|
  {
    if ms != [] {
      RemoveAbsentId(ms[1..], id);
    }
  }

  /** Removal keeps the list newest first. */
  lemma {:induction false} RemoveKeepsNewestFirst(ms: seq<Material>, id: string)
    requires NewestFirst(ms)
    ensures NewestFirst(RemoveId(ms, id))
    decreases |ms|
  {
    if ms != [] {
      var tail := ms[1..];
      RemoveKeepsNewestFirst(tail, id);
      var rt := RemoveId(tail, id);
      if ms[0].id != id {
        forall j | 0 <= j < |rt| ensures ms[0].timestamp >= rt[j].timestamp {
          assert rt[j] in tail;
        }
        var r := [ms[0]] + rt;
        forall i, j | 0 <= i < j < |r| ensures r[i].timestamp >= r[j].timestamp {
          assert r[j] == rt[j - 1];
          if i > 0 {
            assert r[i] == rt[i - 1];
          }
        }
      }
    }
  }

  /** The materials list together with the id awaiting confirmation. */
  datatype DeleteState = DeleteState(materials: seq<Material>, pending: Option<string>)

  /** Clicking delete only records the id to confirm. */
  function RequestDelete(st: DeleteState, id: string): (r: DeleteState)
    ensures r.materials == st.materials && r.pending == Some(id)
  {
    st.(pending := Some(id))
  }

  /** Dismissing the confirmation clears the pending id. */
  function CancelDelete(st: DeleteState): (r: DeleteState)
    ensures r.materials == st.materials && r.pending.None?
  {
    st.(pending := None)
  }

  /** What the store answered to the delete. */
  datatype DeleteOutcome = DeleteSucceeded | DeleteFailed

  /** Confirming: nothing happens unless a non-empty id is pending. With a
      session a failed delete keeps both the list and the pending id and
      reports the failure; otherwise the materials carrying the id go and the
      pending id is cleared. */
  function ConfirmDelete(st: DeleteState, session: Session, outcome: DeleteOutcome)
    : (r: (DeleteState, bool))
    ensures st.pending.None? || st.pending == Some("") ==> r == (st, false)
    ensures st.pending.Some? && st.pending.value != "" && session.SignedIn? && outcome.DeleteFailed? ==>
              r == (st, true)
    ensures st.pending.Some? && st.pending.value != "" && (session.SignedOut? || outcome.DeleteSucceeded?) ==>
              && !r.1 && r.0.pending.None?
              && r.0.materials == RemoveId(st.materials, st.pending.value)
              && (forall m :: m in r.0.materials <==> m in st.materials && m.id != st.pending.value)
  {
    match st.pending
    case None => (st, false)
    case Some(id) =>
      if id == "" then (st, false)
      else if session.SignedIn? && outcome.DeleteFailed? then (st, true)
      else (DeleteState(RemoveId(st.materials, id), None), false)
  }

  /** Request, then confirm without a session: exactly the materials carrying
      that id are gone. Request, then cancel: the list is untouched. */
  lemma {:induction false} RequestThenResolve(st: DeleteState, id: string, outcome: DeleteOutcome)
    requires id != ""
    ensures ConfirmDelete(RequestDelete(st, id), SignedOut, outcome).0
              == DeleteState(RemoveId(st.materials, id), None)
    ensures CancelDelete(RequestDelete(st, id)) == st.(pending := None)
  {
  }
}
