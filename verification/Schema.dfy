// The tables of a workspace, their composite foreign keys and what DELETE does to them.

module Schema {
  import opened Basics

  type Id = int

  datatype Table =
    | Turns | TurnEvents | UsageLedger | HeldWrites | Categories | Entities | VocabTerms | MemoryItems | WriteLog
    | EntityRelations | ItemVersions | MemoryEntities | MemoryKeys | MemoryLinks | Triggers | ConversationKeys
    | ItemAccess | LinkSources

  /** Columns that refer to another row. `SpecEntityId` is the entity named inside a trigger's spec. */
  datatype Ref =
    | TurnId | ParentTurnId | CreatedByTurnId | UpdatedByTurnId | CategoryId | SubjectEntityId | SrcEntityId
    | DstEntityId
    | EvidenceItemId | ItemId | EntityId | SrcItemId | DstItemId | SpecEntityId | UserId | OwnerUserId

  datatype Time =
    | CreatedAt | UpdatedAt | StartedAt | FinishedAt | MentionedAt | OccurredStart | OccurredEnd | DueAt | ValidFrom
    | ValidTo | CoreConfirmedAt | QuickUntil | LastAccessedAt | SummaryUpdatedAt | FiresAt | ExpiresAt | SaidAt
    | PublishedAt | FetchedAt

  /** `Content` stands for the columns of a table that no statement here looks into; an entity's
      aliases, labels, attributes and summary are its `Description`. A category's `Slug` is its slug, a
      vocabulary term's the pair of its vocabulary and its slug. */
  datatype Datum = EventCount | AccessCount | Cost | Provider | Kind | Rrule | Description | Slug | Content

  datatype Value = Text(text: string) | Number(n: int)

  /** A row of any table; a column that is missing from its map is NULL. Times are milliseconds. */
  datatype Row = Row(ws: Id, refs: map<Ref, Id>, times: map<Time, int>, data: map<Datum, Value>)

  datatype Workspace = Workspace(
    owner: Id, kind: string, expiredAt: Option<int>, seedId: Option<string>, seedVersion: Option<int>,
    movedDays: Option<int>)

  datatype User = User(tier: string, createdAt: int)

  datatype Database = Database(
    tables: map<Table, map<Id, Row>>, workspaces: map<Id, Workspace>, users: map<Id, User>)

  /** A statement either does its work or raises, and then the transaction is rolled back. */
  datatype Outcome = Applied(db: Database) | Aborted

  /** The workspace's own self entity. */
  predicate IsSelf(row: Row) {
    Kind in row.data && row.data[Kind] == Text("self")
  }

  function Rows(db: Database, t: Table): map<Id, Row> {
    if t in db.tables then db.tables[t] else map[]
  }

  predicate Whole(db: Database) {
    forall t: Table :: t in db.tables
  }

  lemma SameTables(a: Database, b: Database)
    requires Whole(a) && Whole(b) && a.workspaces == b.workspaces && a.users == b.users
    requires forall t :: Rows(a, t) == Rows(b, t)
    ensures a == b
  {
    forall t: Table ensures a.tables[t] == b.tables[t] {
      assert Rows(a, t) == Rows(b, t);
    }
    assert a.tables == b.tables;
  }

  // ------------------------------------------------------------------ foreign keys

  datatype OnDelete = Cascade | NoAction | SetNull

  datatype ForeignKey = ForeignKey(to: Table, onDelete: OnDelete)

  function OnTurn(c: Ref): Option<ForeignKey> {
    match c
    case TurnId => Some(ForeignKey(Turns, Cascade))
    case _ => None
  }

  function OnItem(c: Ref): Option<ForeignKey> {
    match c
    case ItemId => Some(ForeignKey(MemoryItems, Cascade))
    case _ => None
  }

  function OnItemAndTurn(c: Ref): Option<ForeignKey> {
    match c
    case ItemId => Some(ForeignKey(MemoryItems, Cascade))
    case TurnId => Some(ForeignKey(Turns, Cascade))
    case _ => None
  }

  function OfItems(c: Ref): Option<ForeignKey> {
    match c
    case CategoryId => Some(ForeignKey(Categories, NoAction))
    case SubjectEntityId => Some(ForeignKey(Entities, NoAction))
    case CreatedByTurnId => Some(ForeignKey(Turns, Cascade))
    case UpdatedByTurnId => Some(ForeignKey(Turns, Cascade))
    case _ => None
  }

  function OfRelations(c: Ref): Option<ForeignKey> {
    match c
    case SrcEntityId => Some(ForeignKey(Entities, Cascade))
    case DstEntityId => Some(ForeignKey(Entities, Cascade))
    case EvidenceItemId => Some(ForeignKey(MemoryItems, NoAction))
    case _ => None
  }

  /** The keys between tables of one workspace: (column, workspace_id) references (id, workspace_id). */
  function KeyOf(from: Table, c: Ref): Option<ForeignKey> {
    match from
    case TurnEvents => OnTurn(c)
    case HeldWrites => OnTurn(c)
    case WriteLog => OnTurn(c)
    case ConversationKeys => OnTurn(c)
    case UsageLedger => (match c case TurnId => Some(ForeignKey(Turns, SetNull)) case _ => None)
    case MemoryKeys => OnItem(c)
    case Triggers => OnItem(c)
    case ItemVersions => OnItemAndTurn(c)
    case ItemAccess => OnItemAndTurn(c)
    case LinkSources => OnItemAndTurn(c)
    case MemoryEntities => (match c case EntityId => Some(ForeignKey(Entities, Cascade)) case _ => OnItem(c))
    case MemoryLinks =>
      (match c
       case SrcItemId => Some(ForeignKey(MemoryItems, Cascade))
       case DstItemId => Some(ForeignKey(MemoryItems, Cascade))
       case _ => None)
    case MemoryItems => OfItems(c)
    case EntityRelations => OfRelations(c)
    case _ => None
  }

  // ------------------------------------------------------------------ the columns, one by one

  /** The tables that have this column. */
  predicate HasColumn(t: Table, c: Ref) {
    match c
    case TurnId =>
      t.TurnEvents? || t.HeldWrites? || t.WriteLog? || t.ConversationKeys? || t.UsageLedger? || t.ItemVersions?
      || t.ItemAccess? || t.LinkSources?
    case ParentTurnId => t.Turns?
    case CreatedByTurnId =>
      t.Entities? || t.MemoryItems? || t.MemoryEntities? || t.MemoryLinks? || t.EntityRelations? || t.Triggers?
    case UpdatedByTurnId => t.Entities? || t.MemoryItems? || t.Triggers?
    case CategoryId => t.MemoryItems?
    case SubjectEntityId => t.MemoryItems?
    case SrcEntityId => t.EntityRelations?
    case DstEntityId => t.EntityRelations?
    case EvidenceItemId => t.EntityRelations?
    case ItemId =>
      t.MemoryKeys? || t.Triggers? || t.ItemVersions? || t.ItemAccess? || t.LinkSources? || t.MemoryEntities?
    case EntityId => t.MemoryEntities?
    case SrcItemId => t.MemoryLinks?
    case DstItemId => t.MemoryLinks?
    case SpecEntityId => t.Triggers?
    case UserId => t.Turns?
    case OwnerUserId => t.UsageLedger?
  }

  /** The table a column names rows of; users are not in a workspace's tables. */
  function Names(c: Ref): Option<Table> {
    match c
    case TurnId => Some(Turns) case ParentTurnId => Some(Turns)
    case CreatedByTurnId => Some(Turns) case UpdatedByTurnId => Some(Turns)
    case CategoryId => Some(Categories)
    case SubjectEntityId => Some(Entities) case SrcEntityId => Some(Entities) case DstEntityId => Some(Entities)
    case EntityId => Some(Entities) case SpecEntityId => Some(Entities)
    case EvidenceItemId => Some(MemoryItems) case ItemId => Some(MemoryItems)
    case SrcItemId => Some(MemoryItems) case DstItemId => Some(MemoryItems)
    case UserId => None case OwnerUserId => None
  }

  /** Columns that name a row and have no foreign key. */
  predicate Loose(t: Table, c: Ref) {
    c.ParentTurnId? || c.SpecEntityId? || ((c.CreatedByTurnId? || c.UpdatedByTurnId?) && !t.MemoryItems?)
  }

  /** Every other column that names a row is a key to the table it names: it cascades, but for an item's
      category and subject and a relation's evidence, which hold their row, and the ledger's turn, which
      is nulled. */
  lemma KeysByColumn(t: Table, c: Ref)
    ensures KeyOf(t, c).Some? <==> HasColumn(t, c) && Names(c).Some? && !Loose(t, c)
    ensures KeyOf(t, c).Some? ==>
      && Some(KeyOf(t, c).value.to) == Names(c)
      && KeyOf(t, c).value.onDelete ==
           (if c.CategoryId? || c.SubjectEntityId? || c.EvidenceItemId? then NoAction
            else if t.UsageLedger? then SetNull else Cascade)
  {
  }

  /** Keys lead only upwards, so cascades end. */
  function Level(t: Table): nat {
    match t
    case Turns => 2 case Entities => 2 case Categories => 2 case MemoryItems => 1 case _ => 0
  }

  lemma KeysLeadUp(from: Table, c: Ref)
    ensures KeyOf(from, c).Some? ==> Level(KeyOf(from, c).value.to) > Level(from)
  {
  }

  /** This cell leads to a row of the same workspace, when it leads anywhere. */
  predicate LeadsTo(db: Database, to: Table, row: Row, c: Ref) {
    c in row.refs ==> row.refs[c] in Rows(db, to) && Rows(db, to)[row.refs[c]].ws == row.ws
  }

  predicate RefOk(db: Database, t: Table, row: Row, c: Ref) {
    KeyOf(t, c).Some? ==> LeadsTo(db, KeyOf(t, c).value.to, row, c)
  }

  predicate RowOk(db: Database, t: Table, row: Row) {
    forall c :: RefOk(db, t, row, c)
  }

  /** Every reference leads to a row of the same workspace. */
  ghost predicate Integrity(db: Database) {
    forall t, id :: id in Rows(db, t) ==> RowOk(db, t, Rows(db, t)[id])
  }

  // ------------------------------------------------------------------ unique slugs

  function DatumIn(row: Row, d: Datum): Option<Value> {
    if d in row.data then Some(row.data[d]) else None
  }

  /** The tables whose slugs are unique within a workspace. */
  predicate HasSlug(t: Table) {
    t.Categories? || t.VocabTerms?
  }

  /** A row of this workspace has the slug already. */
  predicate SlugTaken(rows: map<Id, Row>, t: Table, ws: Id, slug: Option<Value>) {
    HasSlug(t) && slug.Some? && exists k | k in rows :: rows[k].ws == ws && DatumIn(rows[k], Slug) == slug
  }

  predicate SameSlug(t: Table, a: Row, b: Row) {
    HasSlug(t) && a.ws == b.ws && DatumIn(a, Slug).Some? && DatumIn(a, Slug) == DatumIn(b, Slug)
  }

  /** `uq_categories_workspace_id_slug` and `uq_vocab_terms_workspace_id_vocab_slug`. */
  ghost predicate UniqueSlugs(db: Database) {
    forall t, a, b :: a in Rows(db, t) && b in Rows(db, t) && SameSlug(t, Rows(db, t)[a], Rows(db, t)[b]) ==> a == b
  }

  // ------------------------------------------------------------------ DELETE

  /** Deleting `ids` from t deletes this row: it is one of them, or it cascades from one that goes. */
  predicate Goes(db: Database, t: Table, ids: set<Id>, u: Table, id: Id)
    requires id in Rows(db, u)
    decreases 2 - Level(u)
  {
    (u == t && id in ids) || exists c :: GoesBy(db, t, ids, u, id, c)
  }

  predicate GoesBy(db: Database, t: Table, ids: set<Id>, u: Table, id: Id, c: Ref)
    requires id in Rows(db, u)
    decreases 2 - Level(u), 0
  {
    KeysLeadUp(u, c);
    var row := Rows(db, u)[id];
    KeyOf(u, c).Some? && KeyOf(u, c).value.onDelete == Cascade && c in row.refs && RefOk(db, u, row, c)
    && Goes(db, t, ids, KeyOf(u, c).value.to, row.refs[c])
  }

  /** A key of this row that holds on to a row that goes. */
  predicate Loses(db: Database, t: Table, ids: set<Id>, u: Table, id: Id, c: Ref)
    requires id in Rows(db, u)
  {
    var row := Rows(db, u)[id];
    KeyOf(u, c).Some? && c in row.refs && RefOk(db, u, row, c) && Goes(db, t, ids, KeyOf(u, c).value.to, row.refs[c])
  }

  /** A key with no action forbids the delete when a row that stays would lose its parent. */
  predicate Held(db: Database, t: Table, ids: set<Id>, u: Table, id: Id, c: Ref)
    requires id in Rows(db, u)
  {
    && KeyOf(u, c).Some? && KeyOf(u, c).value.onDelete == NoAction
    && !Goes(db, t, ids, u, id) && Loses(db, t, ids, u, id, c)
  }

  /** A row that goes by a cascade refers to a row of its workspace that goes. */
  lemma GoesWithItsParent(db: Database, t: Table, ids: set<Id>, u: Table, id: Id, c: Ref)
    requires id in Rows(db, u) && GoesBy(db, t, ids, u, id, c)
    ensures KeyOf(u, c).Some? && KeyOf(u, c).value.onDelete == Cascade && Level(KeyOf(u, c).value.to) > Level(u)
    ensures c in Rows(db, u)[id].refs && LeadsTo(db, KeyOf(u, c).value.to, Rows(db, u)[id], c)
    ensures Goes(db, t, ids, KeyOf(u, c).value.to, Rows(db, u)[id].refs[c])
  {
    KeysLeadUp(u, c);
  }

  predicate Blocked(db: Database, t: Table, ids: set<Id>) {
    exists u: Table :: exists id | id in Rows(db, u) :: exists c :: Held(db, t, ids, u, id, c)
  }

  function Surviving(db: Database, t: Table, ids: set<Id>, u: Table, id: Id): Row
    requires id in Rows(db, u)
  {
    var row := Rows(db, u)[id];
    row.(refs := map c | c in row.refs &&
      !(KeyOf(u, c).Some? && KeyOf(u, c).value.onDelete == SetNull && Loses(db, t, ids, u, id, c)) :: row.refs[c])
  }

  function Remaining(db: Database, t: Table, ids: set<Id>, u: Table): map<Id, Row> {
    map id | id in Rows(db, u) && !Goes(db, t, ids, u, id) :: Surviving(db, t, ids, u, id)
  }

  /** `DELETE FROM t` of these rows, with the cascades, the nulled keys and the checks at its end. */
  function Delete(db: Database, t: Table, ids: set<Id>): Outcome {
    if Blocked(db, t, ids) then Aborted
    else Applied(db.(tables := map u: Table :: Remaining(db, t, ids, u)))
  }

  /** Whatever a delete cascades to, what it leaves is referentially intact. */
  lemma DeleteKeepsIntegrity(db: Database, t: Table, ids: set<Id>)
    requires Integrity(db) && Delete(db, t, ids).Applied?
    ensures Integrity(Delete(db, t, ids).db)
  {
    var after := Delete(db, t, ids).db;
    forall u, id | id in Rows(after, u) ensures RowOk(after, u, Rows(after, u)[id]) {
      assert RowOk(db, u, Rows(db, u)[id]);
      forall c ensures RefOk(after, u, Rows(after, u)[id], c) {
        assert RefOk(db, u, Rows(db, u)[id], c);
        DeleteKeepsRef(db, t, ids, u, id, c);
      }
    }
  }

  lemma AfterDelete(db: Database, t: Table, ids: set<Id>, u: Table, id: Id)
    requires !Blocked(db, t, ids)
    ensures var rows := Rows(Delete(db, t, ids).db, u);
      && (id in rows <==> id in Rows(db, u) && !Goes(db, t, ids, u, id))
      && (id in rows ==> rows[id] == Surviving(db, t, ids, u, id) && rows[id].ws == Rows(db, u)[id].ws)
  {
    DeletedTable(db, t, ids, u);
  }

  lemma DeletedTable(db: Database, t: Table, ids: set<Id>, u: Table)
    requires !Blocked(db, t, ids)
    ensures Rows(Delete(db, t, ids).db, u) == Remaining(db, t, ids, u)
  {
  }

  lemma GoesThrough(db: Database, t: Table, ids: set<Id>, u: Table, id: Id, c: Ref)
    requires id in Rows(db, u) && KeyOf(u, c).Some? && KeyOf(u, c).value.onDelete == Cascade
    requires Loses(db, t, ids, u, id, c)
    ensures Goes(db, t, ids, u, id)
  {
    assert GoesBy(db, t, ids, u, id, c);
  }

  lemma HeldBlocks(db: Database, t: Table, ids: set<Id>, u: Table, id: Id, c: Ref)
    requires id in Rows(db, u) && Held(db, t, ids, u, id, c)
    ensures Blocked(db, t, ids)
  {
  }

  /** A row that stays keeps its parents, unless the key is one that is nulled. */
  lemma KeepsItsParent(db: Database, t: Table, ids: set<Id>, u: Table, id: Id, c: Ref)
    requires !Blocked(db, t, ids) && id in Rows(db, u) && !Goes(db, t, ids, u, id) && KeyOf(u, c).Some?
    ensures Loses(db, t, ids, u, id, c) ==> KeyOf(u, c).value.onDelete == SetNull
  {
    if Loses(db, t, ids, u, id, c) {
      match KeyOf(u, c).value.onDelete
      case Cascade => GoesThrough(db, t, ids, u, id, c);
      case NoAction => HeldBlocks(db, t, ids, u, id, c);
      case SetNull =>
    }
  }

  lemma SurvivingRef(db: Database, t: Table, ids: set<Id>, u: Table, id: Id, c: Ref)
    requires id in Rows(db, u)
    ensures var row, left := Rows(db, u)[id], Surviving(db, t, ids, u, id);
      && (c in left.refs ==> c in row.refs && left.refs[c] == row.refs[c])
      && (c in left.refs ==>
            !(KeyOf(u, c).Some? && KeyOf(u, c).value.onDelete == SetNull && Loses(db, t, ids, u, id, c)))
  {
  }

  lemma RefKeepsParent(db: Database, t: Table, ids: set<Id>, u: Table, id: Id, c: Ref, key: ForeignKey)
    requires !Blocked(db, t, ids) && id in Rows(db, u) && !Goes(db, t, ids, u, id)
    requires KeyOf(u, c) == Some(key) && LeadsTo(db, key.to, Rows(db, u)[id], c)
    ensures var row, left := Rows(db, u)[id], Surviving(db, t, ids, u, id);
      c in left.refs ==> c in row.refs && left.refs[c] == row.refs[c] && !Goes(db, t, ids, key.to, row.refs[c])
  {
    SurvivingRef(db, t, ids, u, id, c);
    KeepsItsParent(db, t, ids, u, id, c);
  }

  lemma DeleteKeepsRef(db: Database, t: Table, ids: set<Id>, u: Table, id: Id, c: Ref)
    requires !Blocked(db, t, ids) && id in Rows(db, u) && !Goes(db, t, ids, u, id)
    requires RefOk(db, u, Rows(db, u)[id], c)
    ensures RefOk(Delete(db, t, ids).db, u, Surviving(db, t, ids, u, id), c)
  {
    var key := KeyOf(u, c);
    if key.Some? {
      RefKeepsParent(db, t, ids, u, id, c, key.value);
      ParentStays(db, t, ids, u, id, c, key.value.to);
    }
  }

  lemma ParentStays(db: Database, t: Table, ids: set<Id>, u: Table, id: Id, c: Ref, to: Table)
    requires !Blocked(db, t, ids) && id in Rows(db, u) && LeadsTo(db, to, Rows(db, u)[id], c)
    requires var row, left := Rows(db, u)[id], Surviving(db, t, ids, u, id);
      c in left.refs ==> c in row.refs && left.refs[c] == row.refs[c] && !Goes(db, t, ids, to, row.refs[c])
    ensures LeadsTo(Delete(db, t, ids).db, to, Surviving(db, t, ids, u, id), c)
  {
    if c in Rows(db, u)[id].refs {
      AfterDelete(db, t, ids, to, Rows(db, u)[id].refs[c]);
    }
  }
}
