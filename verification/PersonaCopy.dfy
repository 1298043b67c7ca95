// Copying a persona template into a workspace: what each INSERT ... SELECT writes, and why the copy is
// the template's image under its new ids, with its clocks moved.

module PersonaCopy {
  import opened Basics
  import opened Schema

  const DAY_MS := 86_400_000
  const WEEK_MS := 7 * DAY_MS

  /** One call. `newId` is the id generated for each row; the two self entities are looked up. */
  datatype Call = Call(
    template: Id, target: Id, user: Id, days: int, now: int, newId: (Table, Id) -> Id, selfOld: Id, selfNew: Id)

  /** The id generated for the copy of this row. */
  function NewId(call: Call, t: Table, id: Id): Id {
    call.newId(t, id)
  }

  // ------------------------------------------------------------------ the statements as data

  /** Where a reference of a copied row comes from: the map, for a row of this table. A joined column
      also selects: a row whose reference is not in the map is left out. */
  datatype RefExpr = Mapped(to: Table) | Joined(to: Table) | ThisUser | NoRef

  /** How a time is copied: moved by the call's days, by the item's own rule, made now, or not at all. */
  datatype TimeExpr = Shift | ByRule | RightNow | NoTime

  datatype DataExpr = Keep | Zero | NoData

  function RefOf(t: Table, r: Ref): RefExpr {
    match t
    case Turns =>
      (match r case ParentTurnId => Mapped(Turns) case UserId => ThisUser case _ => NoRef)
    case Entities => MadeBy(r)
    case MemoryItems =>
      (match r case CategoryId => Mapped(Categories) case SubjectEntityId => Mapped(Entities) case _ => MadeBy(r))
    case MemoryEntities =>
      (match r
       case ItemId => Joined(MemoryItems) case EntityId => Joined(Entities) case CreatedByTurnId => Mapped(Turns)
       case _ => NoRef)
    case MemoryLinks =>
      (match r
       case SrcItemId => Joined(MemoryItems) case DstItemId => Joined(MemoryItems) case CreatedByTurnId => Mapped(Turns)
       case _ => NoRef)
    case EntityRelations =>
      (match r
       case SrcEntityId => Joined(Entities) case DstEntityId => Joined(Entities)
       case EvidenceItemId => Mapped(MemoryItems) case CreatedByTurnId => Mapped(Turns)
       case _ => NoRef)
    case Triggers =>
      (match r case ItemId => Joined(MemoryItems) case SpecEntityId => Mapped(Entities) case _ => MadeBy(r))
    case MemoryKeys => (match r case ItemId => Joined(MemoryItems) case _ => NoRef)
    case LinkSources => (match r case ItemId => Joined(MemoryItems) case TurnId => Mapped(Turns) case _ => NoRef)
    case ConversationKeys => (match r case TurnId => Joined(Turns) case _ => NoRef)
    case _ => NoRef
  }

  function MadeBy(r: Ref): RefExpr {
    match r
    case CreatedByTurnId => Mapped(Turns)
    case UpdatedByTurnId => Mapped(Turns)
    case _ => NoRef
  }

  function TimeOf(t: Table, c: Time): TimeExpr {
    match t
    case VocabTerms => MadeNow(c)
    case Categories => MadeNow(c)
    case Turns => (match c case StartedAt => Shift case FinishedAt => Shift case _ => NoTime)
    case Entities => (match c case SummaryUpdatedAt => Shift case _ => MadeAndUpdatedNow(c))
    case MemoryItems =>
      (match c
       case MentionedAt => ByRule case OccurredStart => ByRule case OccurredEnd => ByRule case DueAt => ByRule
       case ValidFrom => ByRule case ValidTo => ByRule case QuickUntil => ByRule
       case CoreConfirmedAt => Shift
       case _ => MadeAndUpdatedNow(c))
    case MemoryEntities => MadeNow(c)
    case MemoryLinks => MadeNow(c)
    case EntityRelations => (match c case ValidFrom => Shift case ValidTo => Shift case _ => MadeNow(c))
    case Triggers => (match c case FiresAt => Shift case ExpiresAt => Shift case _ => MadeAndUpdatedNow(c))
    case MemoryKeys => MadeAndUpdatedNow(c)
    case LinkSources => (match c case PublishedAt => Shift case FetchedAt => Shift case _ => MadeAndUpdatedNow(c))
    case ConversationKeys => (match c case SaidAt => Shift case _ => MadeNow(c))
    case _ => NoTime
  }

  function MadeNow(c: Time): TimeExpr {
    match c
    case CreatedAt => RightNow
    case _ => NoTime
  }

  function MadeAndUpdatedNow(c: Time): TimeExpr {
    match c
    case CreatedAt => RightNow
    case UpdatedAt => RightNow
    case _ => NoTime
  }

  function DataOf(t: Table, d: Datum): DataExpr {
    match d
    case Content => if IsCopied(t) then Keep else NoData
    case Kind => if t.Turns? || t.Entities? || t.MemoryItems? then Keep else NoData
    case Description => if t.Entities? then Keep else NoData
    case Rrule => if t.MemoryItems? then Keep else NoData
    case Slug => if HasSlug(t) then Keep else NoData
    case EventCount => if t.Turns? then Zero else NoData
    case AccessCount => if t.MemoryItems? then Zero else NoData
    case _ => NoData
  }

  const INSERTS := 12

  /** The statement that fills the table; tables from 12 on are not copied. */
  function CopyPosition(t: Table): nat {
    match t
    case VocabTerms => 0 case Categories => 1 case Turns => 2 case Entities => 3 case MemoryItems => 4
    case MemoryEntities => 5 case MemoryLinks => 6 case EntityRelations => 7 case Triggers => 8 case MemoryKeys => 9
    case LinkSources => 10 case ConversationKeys => 11 case _ => 12
  }

  predicate IsCopied(t: Table) {
    CopyPosition(t) < INSERTS
  }

  /** References that may not be null. */
  predicate NotNull(t: Table, r: Ref) {
    match t
    case MemoryItems => r.CreatedByTurnId? || r.UpdatedByTurnId?
    case MemoryEntities => r.ItemId? || r.EntityId? || r.CreatedByTurnId?
    case MemoryLinks => r.SrcItemId? || r.DstItemId? || r.CreatedByTurnId?
    case EntityRelations => r.SrcEntityId? || r.DstEntityId? || r.CreatedByTurnId?
    case Triggers => r.ItemId? || r.CreatedByTurnId? || r.UpdatedByTurnId?
    case MemoryKeys => r.ItemId?
    case LinkSources => r.ItemId? || r.TurnId?
    case ConversationKeys => r.TurnId?
    case _ => false
  }

  // ------------------------------------------------------------------ one copied row

  /** A template row that a statement reads; the self entity is not copied but mapped. */
  predicate IsSource(db: Database, call: Call, t: Table, id: Id) {
    id in Rows(db, t) && Rows(db, t)[id].ws == call.template && !(t == Entities && IsSelf(Rows(db, t)[id]))
  }

  /** `_persona_map`. */
  function Lookup(db: Database, call: Call, t: Table, was: Id): Option<Id> {
    if t == Entities && was == call.selfOld then Some(call.selfNew)
    else if IsSource(db, call, t, was) then Some(NewId(call, t, was))
    else None
  }

  function MappedRef(db: Database, call: Call, to: Table, was: Option<Id>): Option<Id> {
    if was.Some? then Lookup(db, call, to, was.value) else None
  }

  function RefIn(row: Row, r: Ref): Option<Id> {
    if r in row.refs then Some(row.refs[r]) else None
  }

  function TimeIn(row: Row, c: Time): Option<int> {
    if c in row.times then Some(row.times[c]) else None
  }

  function Moved(at: Option<int>, ms: int): Option<int> {
    if at.Some? then Some(at.value + ms) else None
  }

  function ShiftMs(call: Call): int {
    call.days * DAY_MS
  }

  /** Whole weeks only, so that a routine keeps its weekday. */
  function WeeksMs(call: Call): int {
    call.days / 7 * 7 * DAY_MS
  }

  function CopiedRef(db: Database, call: Call, t: Table, row: Row, r: Ref): Option<Id> {
    match RefOf(t, r)
    case Mapped(to) => MappedRef(db, call, to, RefIn(row, r))
    case Joined(to) => MappedRef(db, call, to, RefIn(row, r))
    case ThisUser => Some(call.user)
    case NoRef => None
  }

  function CopiedTime(call: Call, t: Table, row: Row, c: Time): Option<int> {
    match TimeOf(t, c)
    case Shift => Moved(TimeIn(row, c), ShiftMs(call))
    case ByRule => Moved(TimeIn(row, c), if Rrule in row.data then WeeksMs(call) else ShiftMs(call))
    case RightNow => Some(call.now)
    case NoTime => None
  }

  function CopiedDatum(t: Table, row: Row, d: Datum): Option<Value> {
    match DataOf(t, d)
    case Keep => DatumIn(row, d)
    case Zero => Some(Number(0))
    case NoData => None
  }

  function CopiedRow(db: Database, call: Call, t: Table, row: Row): Row {
    Row(call.target,
        map r: Ref | CopiedRef(db, call, t, row, r).Some? :: CopiedRef(db, call, t, row, r).value,
        map c: Time | CopiedTime(call, t, row, c).Some? :: CopiedTime(call, t, row, c).value,
        map d: Datum | CopiedDatum(t, row, d).Some? :: CopiedDatum(t, row, d).value)
  }

  /** The joins of the statement find this row. */
  predicate Selected(db: Database, call: Call, t: Table, id: Id) {
    IsSource(db, call, t, id) &&
    forall r :: RefOf(t, r).Joined? ==> CopiedRef(db, call, t, Rows(db, t)[id], r).Some?
  }

  /** No NOT NULL column would be null. A trigger's spec, when it names an entity, is null if that entity
      is not in the map. */
  predicate Fits(db: Database, call: Call, t: Table, row: Row) {
    && (forall r :: NotNull(t, r) ==> CopiedRef(db, call, t, row, r).Some?)
    && (t == Triggers && SpecEntityId in row.refs ==> CopiedRef(db, call, t, row, SpecEntityId).Some?)
  }

  // ------------------------------------------------------------------ one INSERT ... SELECT

  /** Nothing stops the copy of this row: it fits, its id and its slug are free, its keys hold. */
  predicate RowInserts(db: Database, from: Database, call: Call, t: Table, row: Row, id: Id) {
    && Fits(from, call, t, row) && NewId(call, t, id) !in Rows(db, t)
    && !SlugTaken(Rows(db, t), t, call.target, DatumIn(CopiedRow(from, call, t, row), Slug))
    && RowOk(db, t, CopiedRow(from, call, t, row))
  }

  /** Two rows of one statement share neither id nor slug. */
  predicate Apart(from: Database, call: Call, t: Table, a: Id, b: Id)
    requires a in Rows(from, t) && b in Rows(from, t)
  {
    && NewId(call, t, a) != NewId(call, t, b)
    && !SameSlug(t, CopiedRow(from, call, t, Rows(from, t)[a]), CopiedRow(from, call, t, Rows(from, t)[b]))
  }

  /** The statement succeeds on a database whose map was made from `from`. */
  ghost predicate InsertOk(db: Database, from: Database, call: Call, t: Table) {
    && (forall id :: Selected(from, call, t, id) ==> RowInserts(db, from, call, t, Rows(from, t)[id], id))
    && (forall a, b :: Selected(from, call, t, a) && Selected(from, call, t, b) && a != b ==>
        Apart(from, call, t, a, b))
  }

  /** The rows after the statement: those before it and one for each selected row, under its new id. */
  ghost predicate Inserted(before: map<Id, Row>, after: map<Id, Row>, from: Database, call: Call, t: Table) {
    && (forall k :: k in before ==> k in after && after[k] == before[k])
    && (forall id :: Selected(from, call, t, id) ==>
          NewId(call, t, id) in after && NewId(call, t, id) !in before
          && after[NewId(call, t, id)] == CopiedRow(from, call, t, Rows(from, t)[id]))
    && (forall k :: k in after && k !in before ==> exists id :: Selected(from, call, t, id) && NewId(call, t, id) == k)
    && (forall a, b :: Selected(from, call, t, a) && Selected(from, call, t, b) && a != b ==>
          NewId(call, t, a) != NewId(call, t, b))
  }

  // ------------------------------------------------------------------ the whole call

  function DescribedSelf(mine: Row, theirs: Row, now: int): Row {
    Row(mine.ws, mine.refs, mine.times[UpdatedAt := now],
        if Description in theirs.data then mine.data[Description := theirs.data[Description]]
        else mine.data - {Description})
  }

  /** The entities before the template's are inserted: the copy's own self takes the template's
      description of "me". */
  function Described(db: Database, call: Call): map<Id, Row> {
    var rows := Rows(db, Entities);
    if call.selfOld in rows && call.selfNew in rows then
      rows[call.selfNew := DescribedSelf(rows[call.selfNew], rows[call.selfOld], call.now)]
    else rows
  }

  function Base(db: Database, call: Call, t: Table): map<Id, Row> {
    if t == Entities then Described(db, call) else Rows(db, t)
  }

  /** The first k statements have been done. */
  ghost predicate CopiedTo(from: Database, call: Call, db: Database, k: nat) {
    forall t :: if CopyPosition(t) < k && IsCopied(t) then Inserted(Base(from, call, t), Rows(db, t), from, call, t)
                else Rows(db, t) == Rows(from, t)
  }

  function Marked(db: Database, call: Call): map<Id, Workspace> {
    if call.template in db.workspaces && call.target in db.workspaces then
      db.workspaces[call.target := db.workspaces[call.target].(
        seedId := db.workspaces[call.template].seedId, seedVersion := db.workspaces[call.template].seedVersion,
        movedDays := Some(call.days))]
    else db.workspaces
  }

  /** What a successful call leaves. */
  ghost predicate CopyOf(from: Database, call: Call, db: Database) {
    CopiedTo(from, call, db, INSERTS) && db.workspaces == Marked(from, call) && db.users == from.users
  }

  predicate EmptyOf(db: Database, t: Table, ws: Id) {
    forall id | id in Rows(db, t) :: Rows(db, t)[id].ws != ws
  }

  predicate GuardsPass(db: Database, call: Call) {
    && call.days >= 0
    && call.template in db.workspaces && db.workspaces[call.template].kind == "template"
    && call.target in db.workspaces && db.workspaces[call.target].owner == call.user
    && db.workspaces[call.target].kind == "persona_copy"
    && EmptyOf(db, MemoryItems, call.target) && EmptyOf(db, Turns, call.target)
  }

  predicate IsSelfOf(db: Database, ws: Id, id: Id) {
    id in Rows(db, Entities) && Rows(db, Entities)[id].ws == ws && IsSelf(Rows(db, Entities)[id])
  }

  /** The unique index on a workspace's self entity. */
  ghost predicate OneSelf(db: Database) {
    forall ws, a, b :: IsSelfOf(db, ws, a) && IsSelfOf(db, ws, b) ==> a == b
  }

  /** Every generated id is new and no two are the same: what gen_random_uuid() is relied on for. */
  ghost predicate FreshIds(db: Database, call: Call) {
    && (forall t, id :: IsCopied(t) && IsSource(db, call, t, id) ==> NewId(call, t, id) !in Rows(db, t))
    && (forall t, a, b :: IsCopied(t) && IsSource(db, call, t, a) && IsSource(db, call, t, b) && a != b ==>
          NewId(call, t, a) != NewId(call, t, b))
  }

  /** The target has no category and no vocabulary term with a slug of the template's. */
  ghost predicate FreeSlugs(db: Database, call: Call) {
    forall t, id :: IsCopied(t) && IsSource(db, call, t, id) ==> SlugIsFree(Rows(db, t), call, t, Rows(db, t)[id])
  }

  predicate SlugIsFree(rows: map<Id, Row>, call: Call, t: Table, row: Row) {
    !SlugTaken(rows, t, call.target, DatumIn(row, Slug))
  }

  /** Every reference that has no foreign key, but that a NOT NULL column or a trigger's spec is computed
      from, leads to a row of the template. */
  ghost predicate LooseRefsResolve(db: Database, call: Call) {
    forall t, id :: IsCopied(t) && IsSource(db, call, t, id) ==> Fits(db, call, t, Rows(db, t)[id])
  }

  /** When the call succeeds, for a database whose keys and NOT NULL columns are intact. */
  ghost predicate Succeeds(db: Database, call: Call) {
    && GuardsPass(db, call)
    && IsSelfOf(db, call.template, call.selfOld) && IsSelfOf(db, call.target, call.selfNew)
    && FreshIds(db, call) && LooseRefsResolve(db, call) && FreeSlugs(db, call)
  }

  ghost predicate NotNulls(db: Database) {
    forall t, id, r :: id in Rows(db, t) && NotNull(t, r) ==> r in Rows(db, t)[id].refs
  }

  ghost predicate Intact(db: Database) {
    Whole(db) && Integrity(db) && NotNulls(db) && OneSelf(db) && UniqueSlugs(db)
  }

  // ------------------------------------------------------------------ references lead into the copy

  /** In a copied table every foreign key is computed through the map, from a table copied before it,
      and every joined column is a foreign key that is never null. */
  lemma KeysAreMapped(t: Table, r: Ref)
    requires IsCopied(t)
    ensures KeyOf(t, r).Some? ==>
      && (RefOf(t, r) == Mapped(KeyOf(t, r).value.to) || RefOf(t, r) == Joined(KeyOf(t, r).value.to))
      && CopyPosition(KeyOf(t, r).value.to) < CopyPosition(t)
    ensures RefOf(t, r).Joined? ==> KeyOf(t, r) == Some(ForeignKey(RefOf(t, r).to, Cascade)) && NotNull(t, r)
  {
  }

  /** A foreign key of a template row leads to a mapped row. */
  lemma KeyIsMapped(db: Database, call: Call, t: Table, id: Id, r: Ref, to: Table)
    requires Intact(db) && IsSource(db, call, t, id) && IsSelfOf(db, call.template, call.selfOld)
    requires KeyOf(t, r).Some? && KeyOf(t, r).value.to == to && r in Rows(db, t)[id].refs
    ensures Lookup(db, call, to, Rows(db, t)[id].refs[r]).Some?
  {
    assert RowOk(db, t, Rows(db, t)[id]);
    assert RefOk(db, t, Rows(db, t)[id], r);
    var x := Rows(db, t)[id].refs[r];
    if to == Entities && IsSelf(Rows(db, Entities)[x]) {
      assert IsSelfOf(db, call.template, x);
    }
  }

  /** With the keys intact the joins leave no row out. */
  lemma SelectedIsSource(db: Database, call: Call, t: Table, id: Id)
    requires Intact(db) && IsCopied(t) && IsSelfOf(db, call.template, call.selfOld)
    ensures Selected(db, call, t, id) <==> IsSource(db, call, t, id)
  {
    if IsSource(db, call, t, id) {
      forall r | RefOf(t, r).Joined? ensures CopiedRef(db, call, t, Rows(db, t)[id], r).Some? {
        KeysAreMapped(t, r);
        assert r in Rows(db, t)[id].refs;
        KeyIsMapped(db, call, t, id, r, RefOf(t, r).to);
      }
    }
  }

  /** A mapped id is a row of the target once its table has been copied. */
  lemma MappedIsThere(from: Database, call: Call, db: Database, k: nat, to: Table, was: Id)
    requires Intact(from) && IsSelfOf(from, call.template, call.selfOld) && IsSelfOf(from, call.target, call.selfNew)
    requires CopiedTo(from, call, db, k) && IsCopied(to) && CopyPosition(to) < k && Lookup(from, call, to, was).Some?
    ensures var found := Lookup(from, call, to, was).value;
      found in Rows(db, to) && Rows(db, to)[found].ws == call.target
  {
    assert Inserted(Base(from, call, to), Rows(db, to), from, call, to);
    if to == Entities && was == call.selfOld {
      assert call.selfNew in Base(from, call, to);
    } else {
      SelectedIsSource(from, call, to, was);
    }
  }

  /** So every copied row's foreign keys hold, and no statement fails on one. */
  lemma CopiedRowIsOk(from: Database, call: Call, db: Database, t: Table, id: Id)
    requires Intact(from) && IsSelfOf(from, call.template, call.selfOld) && IsSelfOf(from, call.target, call.selfNew)
    requires IsCopied(t) && CopiedTo(from, call, db, CopyPosition(t)) && IsSource(from, call, t, id)
    ensures RowOk(db, t, CopiedRow(from, call, t, Rows(from, t)[id]))
  {
    var row := Rows(from, t)[id];
    forall r ensures RefOk(db, t, CopiedRow(from, call, t, row), r) {
      var key := KeyOf(t, r);
      if key.Some? && r in CopiedRow(from, call, t, row).refs {
        KeysAreMapped(t, r);
        assert CopiedRef(from, call, t, row, r) == MappedRef(from, call, key.value.to, RefIn(row, r));
        MappedIsThere(from, call, db, CopyPosition(t), key.value.to, row.refs[r]);
      }
    }
  }

  /** This row fits, its id is new and the target has not its slug. */
  predicate RowFits(rows: map<Id, Row>, from: Database, call: Call, t: Table, row: Row, id: Id) {
    Fits(from, call, t, row) && NewId(call, t, id) !in rows && SlugIsFree(rows, call, t, row)
  }

  /** What a caller can see of the statement's success: its rows fit and their ids are distinct. */
  ghost predicate RowsFit(rows: map<Id, Row>, from: Database, call: Call, t: Table) {
    && (forall id :: IsSource(from, call, t, id) ==> RowFits(rows, from, call, t, Rows(from, t)[id], id))
    && (forall a, b :: IsSource(from, call, t, a) && IsSource(from, call, t, b) && a != b ==>
          NewId(call, t, a) != NewId(call, t, b))
  }

  /** A copied row keeps its slug, so what is free for the template's row is free for its copy. */
  lemma SlugOfCopy(db: Database, from: Database, call: Call, t: Table, row: Row)
    ensures SlugTaken(Rows(db, t), t, call.target, DatumIn(CopiedRow(from, call, t, row), Slug))
        <==> !SlugIsFree(Rows(db, t), call, t, row)
    ensures HasSlug(t) ==> DatumIn(CopiedRow(from, call, t, row), Slug) == DatumIn(row, Slug)
  {
    assert HasSlug(t) ==> DataOf(t, Slug) == Keep;
    assert HasSlug(t) ==> CopiedDatum(t, row, Slug) == DatumIn(row, Slug);
  }

  /** The template's own slugs are unique, so its copies' are among themselves. */
  lemma CopiesAreApart(from: Database, call: Call, t: Table, a: Id, b: Id)
    requires UniqueSlugs(from) && IsSource(from, call, t, a) && IsSource(from, call, t, b) && a != b
    requires NewId(call, t, a) != NewId(call, t, b)
    ensures Apart(from, call, t, a, b)
  {
    var x, y := Rows(from, t)[a], Rows(from, t)[b];
    SlugOfCopy(from, from, call, t, x);
    SlugOfCopy(from, from, call, t, y);
    assert !SameSlug(t, x, y);
  }

  lemma RowInPlace(from: Database, call: Call, db: Database, t: Table, id: Id)
    requires Intact(from) && IsSelfOf(from, call.template, call.selfOld) && IsSelfOf(from, call.target, call.selfNew)
    requires IsCopied(t) && CopiedTo(from, call, db, CopyPosition(t)) && IsSource(from, call, t, id)
    ensures RowInserts(db, from, call, t, Rows(from, t)[id], id)
        <==> RowFits(Rows(db, t), from, call, t, Rows(from, t)[id], id)
  {
    CopiedRowIsOk(from, call, db, t, id);
    SlugOfCopy(db, from, call, t, Rows(from, t)[id]);
  }

  lemma InsertedRowsFit(from: Database, call: Call, db: Database, t: Table)
    requires Intact(from) && IsSelfOf(from, call.template, call.selfOld) && IsSelfOf(from, call.target, call.selfNew)
    requires IsCopied(t) && CopiedTo(from, call, db, CopyPosition(t)) && InsertOk(db, from, call, t)
    ensures RowsFit(Rows(db, t), from, call, t)
  {
    forall id | IsSource(from, call, t, id) ensures RowFits(Rows(db, t), from, call, t, Rows(from, t)[id], id) {
      SelectedIsSource(from, call, t, id);
      RowInPlace(from, call, db, t, id);
    }
    forall a, b | IsSource(from, call, t, a) && IsSource(from, call, t, b) && a != b
      ensures NewId(call, t, a) != NewId(call, t, b) {
      SelectedIsSource(from, call, t, a);
      SelectedIsSource(from, call, t, b);
      assert Apart(from, call, t, a, b);
    }
  }

  lemma FittingRowsInsert(from: Database, call: Call, db: Database, t: Table)
    requires Intact(from) && IsSelfOf(from, call.template, call.selfOld) && IsSelfOf(from, call.target, call.selfNew)
    requires IsCopied(t) && CopiedTo(from, call, db, CopyPosition(t)) && RowsFit(Rows(db, t), from, call, t)
    ensures InsertOk(db, from, call, t)
  {
    forall id | Selected(from, call, t, id) ensures RowInserts(db, from, call, t, Rows(from, t)[id], id) {
      assert IsSource(from, call, t, id);
      RowInPlace(from, call, db, t, id);
    }
    forall a, b | Selected(from, call, t, a) && Selected(from, call, t, b) && a != b
      ensures Apart(from, call, t, a, b) {
      assert IsSource(from, call, t, a) && IsSource(from, call, t, b);
      CopiesAreApart(from, call, t, a, b);
    }
  }

  /** In its place each statement succeeds exactly when its generated ids are new, its NOT NULL columns
      resolve and the target has none of its slugs. */
  lemma InsertInPlace(from: Database, call: Call, db: Database, t: Table)
    requires Intact(from) && IsSelfOf(from, call.template, call.selfOld) && IsSelfOf(from, call.target, call.selfNew)
    requires IsCopied(t) && CopiedTo(from, call, db, CopyPosition(t))
    ensures InsertOk(db, from, call, t) <==> RowsFit(Rows(db, t), from, call, t)
  {
    if InsertOk(db, from, call, t) {
      InsertedRowsFit(from, call, db, t);
    }
    if RowsFit(Rows(db, t), from, call, t) {
      FittingRowsInsert(from, call, db, t);
    }
  }

  // ------------------------------------------------------------------ what a successful call means

  ghost predicate Copied(from: Database, call: Call, db: Database) {
    Intact(from) && Succeeds(from, call) && CopyOf(from, call, db)
  }

  /** The copied row of a template row. */
  lemma CopiedRowOf(from: Database, call: Call, db: Database, t: Table, id: Id)
    requires Copied(from, call, db) && IsCopied(t) && IsSource(from, call, t, id)
    ensures var k := NewId(call, t, id);
      k in Rows(db, t) && k !in Rows(from, t) && Rows(db, t)[k] == CopiedRow(from, call, t, Rows(from, t)[id])
  {
    SelectedIsSource(from, call, t, id);
    assert Inserted(Base(from, call, t), Rows(db, t), from, call, t);
  }

  /** The copy is a bijection: in every copied table, template ids go one to one onto the rows that are new. */
  lemma CopyIsABijection(from: Database, call: Call, db: Database, t: Table, a: Id, b: Id, k: Id)
    requires Copied(from, call, db) && IsCopied(t)
    ensures IsSource(from, call, t, a) && IsSource(from, call, t, b) && NewId(call, t, a) == NewId(call, t, b) ==>
      a == b
    ensures k in Rows(db, t) && k !in Rows(from, t)
        <==> exists id :: IsSource(from, call, t, id) && NewId(call, t, id) == k
    ensures k in Rows(db, t) && k !in Rows(from, t) ==> Rows(db, t)[k].ws == call.target
  {
    assert Inserted(Base(from, call, t), Rows(db, t), from, call, t);
    if k in Rows(db, t) && k !in Rows(from, t) {
      var id :| Selected(from, call, t, id) && NewId(call, t, id) == k;
      SelectedIsSource(from, call, t, id);
      CopiedRowOf(from, call, db, t, id);
    }
    forall id | IsSource(from, call, t, id) && NewId(call, t, id) == k ensures k in Rows(db, t) && k !in Rows(from, t) {
      CopiedRowOf(from, call, db, t, id);
    }
  }

  lemma CopiedRefOf(from: Database, call: Call, db: Database, t: Table, id: Id, r: Ref)
    requires Copied(from, call, db) && IsCopied(t) && IsSource(from, call, t, id)
    ensures NewId(call, t, id) in Rows(db, t)
    ensures RefIn(Rows(db, t)[NewId(call, t, id)], r) == CopiedRef(from, call, t, Rows(from, t)[id], r)
  {
    CopiedRowOf(from, call, db, t, id);
  }

  /** Whatever a call maps is a row of the copy. */
  lemma MappedIsInTheCopy(from: Database, call: Call, db: Database, to: Table, was: Option<Id>)
    requires Copied(from, call, db) && IsCopied(to)
    ensures var v := MappedRef(from, call, to, was);
      v.Some? ==> v.value in Rows(db, to) && Rows(db, to)[v.value].ws == call.target
  {
    if MappedRef(from, call, to, was).Some? {
      assert CopiedTo(from, call, db, INSERTS);
      MappedIsThere(from, call, db, INSERTS, to, was.value);
    }
  }

  /** References commute with the copy: a foreign key of the copy leads to the copy of what the
      template's leads to (the copy's own self entity for the template's), and is null just when it was. */
  lemma ReferencesCommute(from: Database, call: Call, db: Database, t: Table, id: Id, r: Ref, to: Table)
    requires Copied(from, call, db) && IsCopied(t) && IsSource(from, call, t, id)
    requires KeyOf(t, r).Some? && KeyOf(t, r).value.to == to
    ensures NewId(call, t, id) in Rows(db, t)
    ensures match RefIn(Rows(from, t)[id], r)
      case None => RefIn(Rows(db, t)[NewId(call, t, id)], r) == None
      case Some(was) =>
        var v := if to == Entities && was == call.selfOld then call.selfNew else NewId(call, to, was);
        && RefIn(Rows(db, t)[NewId(call, t, id)], r) == Some(v)
        && v in Rows(db, to) && Rows(db, to)[v].ws == call.target
  {
    CopiedRefOf(from, call, db, t, id, r);
    KeysAreMapped(t, r);
    var was := RefIn(Rows(from, t)[id], r);
    MappedIsInTheCopy(from, call, db, to, was);
    if was.Some? {
      KeyIsMapped(from, call, t, id, r, to);
    }
  }

  /** A reference with no foreign key: the copy's names the copy of what it named, and is null exactly
      when that is not a row of the template, so a copy never points outside itself. */
  lemma LooseReferences(from: Database, call: Call, db: Database, t: Table, id: Id, r: Ref, to: Table)
    requires Copied(from, call, db) && IsCopied(t) && IsSource(from, call, t, id) && IsCopied(to)
        && RefOf(t, r) == Mapped(to)
    ensures NewId(call, t, id) in Rows(db, t)
    ensures match RefIn(Rows(from, t)[id], r)
      case None => RefIn(Rows(db, t)[NewId(call, t, id)], r) == None
      case Some(was) =>
        var v := RefIn(Rows(db, t)[NewId(call, t, id)], r);
        && v == (if to == Entities && was == call.selfOld then Some(call.selfNew)
                 else if IsSource(from, call, to, was) then Some(NewId(call, to, was))
                 else None)
        && (v.Some? ==> v.value in Rows(db, to) && Rows(db, to)[v.value].ws == call.target)
  {
    CopiedRefOf(from, call, db, t, id, r);
    MappedIsInTheCopy(from, call, db, to, RefIn(Rows(from, t)[id], r));
  }

  lemma CopiedDatumOf(from: Database, call: Call, db: Database, t: Table, id: Id, d: Datum)
    requires Copied(from, call, db) && IsCopied(t) && IsSource(from, call, t, id)
    ensures NewId(call, t, id) in Rows(db, t)
    ensures DatumIn(Rows(db, t)[NewId(call, t, id)], d) == CopiedDatum(t, Rows(from, t)[id], d)
  {
    CopiedRowOf(from, call, db, t, id);
  }

  /** Content, kinds, descriptions, slugs and rules are kept; counters start again. */
  predicate SameContent(t: Table, row: Row, copy: Row) {
    && DatumIn(copy, Content) == DatumIn(row, Content)
    && ((t.Turns? || t.Entities? || t.MemoryItems?) ==> DatumIn(copy, Kind) == DatumIn(row, Kind))
    && (t.Entities? ==> DatumIn(copy, Description) == DatumIn(row, Description))
    && (HasSlug(t) ==> DatumIn(copy, Slug) == DatumIn(row, Slug))
    && (t.MemoryItems? ==> DatumIn(copy, Rrule) == DatumIn(row, Rrule) && DatumIn(copy, AccessCount) == Some(Number(0)))
    && (t.Turns? ==> DatumIn(copy, EventCount) == Some(Number(0)))
  }

  lemma SameData(t: Table, row: Row, copy: Row)
    requires IsCopied(t) && forall d :: DatumIn(copy, d) == CopiedDatum(t, row, d)
    ensures SameContent(t, row, copy)
  {
    assert DatumIn(copy, Content) == CopiedDatum(t, row, Content);
    if t.Turns? || t.Entities? || t.MemoryItems? {
      assert DatumIn(copy, Kind) == CopiedDatum(t, row, Kind);
    }
    if t.Turns? {
      assert DatumIn(copy, EventCount) == CopiedDatum(t, row, EventCount);
    } else if t.Entities? {
      assert DatumIn(copy, Description) == CopiedDatum(t, row, Description);
    } else if t.MemoryItems? {
      assert DatumIn(copy, Rrule) == CopiedDatum(t, row, Rrule);
      assert DatumIn(copy, AccessCount) == CopiedDatum(t, row, AccessCount);
    } else if HasSlug(t) {
      assert DatumIn(copy, Slug) == CopiedDatum(t, row, Slug);
    }
  }

  lemma ContentIsKept(from: Database, call: Call, db: Database, t: Table, id: Id)
    requires Copied(from, call, db) && IsCopied(t) && IsSource(from, call, t, id)
    ensures NewId(call, t, id) in Rows(db, t)
    ensures SameContent(t, Rows(from, t)[id], Rows(db, t)[NewId(call, t, id)])
  {
    CopiedRowOf(from, call, db, t, id);
    forall d ensures DatumIn(Rows(db, t)[NewId(call, t, id)], d) == CopiedDatum(t, Rows(from, t)[id], d) {
      CopiedDatumOf(from, call, db, t, id, d);
    }
    SameData(t, Rows(from, t)[id], Rows(db, t)[NewId(call, t, id)]);
  }

  // ------------------------------------------------------------------ clocks

  lemma CopiedTimeOf(from: Database, call: Call, db: Database, t: Table, id: Id, c: Time)
    requires Copied(from, call, db) && IsCopied(t) && IsSource(from, call, t, id)
    ensures NewId(call, t, id) in Rows(db, t)
    ensures TimeIn(Rows(db, t)[NewId(call, t, id)], c) == CopiedTime(call, t, Rows(from, t)[id], c)
  {
    CopiedRowOf(from, call, db, t, id);
  }

  /** The clocks of a routine item that follow its rule. */
  predicate RuleClock(c: Time) {
    c.MentionedAt? || c.OccurredStart? || c.OccurredEnd? || c.DueAt? || c.ValidFrom? || c.ValidTo? || c.QuickUntil?
  }

  /** An item's clocks: with no rule they move by the call's days. A routine's move by the whole weeks in
      them, so each keeps its weekday and time of day and lags the move by less than a week. A null
      clock stays null. */
  lemma ItemClocks(from: Database, call: Call, db: Database, id: Id, c: Time)
    requires Copied(from, call, db) && IsSource(from, call, MemoryItems, id) && RuleClock(c)
    ensures NewId(call, MemoryItems, id) in Rows(db, MemoryItems)
    ensures match TimeIn(Rows(from, MemoryItems)[id], c)
      case None => TimeIn(Rows(db, MemoryItems)[NewId(call, MemoryItems, id)], c) == None
      case Some(was) =>
        var v := TimeIn(Rows(db, MemoryItems)[NewId(call, MemoryItems, id)], c);
        && v.Some?
        && (Rrule !in Rows(from, MemoryItems)[id].data ==> v.value == was + call.days * DAY_MS)
        && (Rrule in Rows(from, MemoryItems)[id].data ==>
              && v.value == was + call.days / 7 * WEEK_MS
              && 0 <= was + call.days * DAY_MS - v.value < WEEK_MS)
  {
    CopiedTimeOf(from, call, db, MemoryItems, id, c);
    FollowsItsRule(call, Rows(from, MemoryItems)[id], c);
    WholeWeeks(call.days);
  }

  lemma FollowsItsRule(call: Call, row: Row, c: Time)
    requires RuleClock(c)
    ensures CopiedTime(call, MemoryItems, row, c)
         == Moved(TimeIn(row, c), if Rrule in row.data then WeeksMs(call) else ShiftMs(call))
  {
  }

  lemma WholeWeeks(days: int)
    ensures days / 7 * 7 * DAY_MS == days / 7 * WEEK_MS
    ensures 0 <= days * DAY_MS - days / 7 * 7 * DAY_MS < WEEK_MS
    ensures days * DAY_MS - days / 7 * 7 * DAY_MS == 0 <==> days % 7 == 0
  {
    assert days == days / 7 * 7 + days % 7;
  }

  /** The clocks that move with every call, whatever rule their row follows. */
  predicate CallClock(t: Table, c: Time) {
    || (t.Turns? && (c.StartedAt? || c.FinishedAt?))
    || (t.EntityRelations? && (c.ValidFrom? || c.ValidTo?))
    || (t.Triggers? && (c.FiresAt? || c.ExpiresAt?))
    || (t.ConversationKeys? && c.SaidAt?)
    || (t.MemoryItems? && c.CoreConfirmedAt?)
    || (t.Entities? && c.SummaryUpdatedAt?)
    || (t.LinkSources? && (c.PublishedAt? || c.FetchedAt?))
  }

  predicate Follows(from: Database, t: Table, id: Id, c: Time)
    requires id in Rows(from, t)
  {
    CallClock(t, c) || (t == MemoryItems && RuleClock(c) && Rrule !in Rows(from, t)[id].data)
  }

  /** Between any two clocks that follow the call, of whatever rows, the gap is the template's. */
  lemma GapsAreKept(from: Database, call: Call, db: Database, t: Table, id: Id, c: Time, u: Table, other: Id, d: Time)
    requires Copied(from, call, db) && IsCopied(t) && IsCopied(u)
    requires IsSource(from, call, t, id) && IsSource(from, call, u, other) && Follows(from, t, id, c)
        && Follows(from, u, other, d)
    requires c in Rows(from, t)[id].times && d in Rows(from, u)[other].times
    ensures NewId(call, t, id) in Rows(db, t) && NewId(call, u, other) in Rows(db, u)
    ensures var a, b := TimeIn(Rows(db, t)[NewId(call, t, id)], c), TimeIn(Rows(db, u)[NewId(call, u, other)], d);
      a.Some? && b.Some? && a.value - b.value == Rows(from, t)[id].times[c] - Rows(from, u)[other].times[d]
  {
    CopiedTimeOf(from, call, db, t, id, c);
    CopiedTimeOf(from, call, db, u, other, d);
    FollowsTheCall(from, call, t, id, c);
    FollowsTheCall(from, call, u, other, d);
  }

  lemma FollowsTheCall(from: Database, call: Call, t: Table, id: Id, c: Time)
    requires id in Rows(from, t) && Follows(from, t, id, c)
    ensures CopiedTime(call, t, Rows(from, t)[id], c) == Moved(TimeIn(Rows(from, t)[id], c), ShiftMs(call))
  {
    if CallClock(t, c) {
      CallClocksShift(t, c);
    } else {
      FollowsItsRule(call, Rows(from, t)[id], c);
    }
  }

  lemma CallClocksShift(t: Table, c: Time)
    requires CallClock(t, c)
    ensures TimeOf(t, c) == Shift
  {
  }

  lemma BookkeepingColumns(t: Table)
    requires IsCopied(t)
    ensures TimeOf(t, CreatedAt) == if t.Turns? then NoTime else RightNow
    ensures TimeOf(t, LastAccessedAt) == NoTime
  {
  }

  /** Bookkeeping clocks start again: a copied row is made now, except a turn, and was never accessed. */
  lemma BookkeepingStartsAgain(from: Database, call: Call, db: Database, t: Table, id: Id)
    requires Copied(from, call, db) && IsCopied(t) && IsSource(from, call, t, id)
    ensures NewId(call, t, id) in Rows(db, t)
    ensures TimeIn(Rows(db, t)[NewId(call, t, id)], CreatedAt) == if t.Turns? then None else Some(call.now)
    ensures TimeIn(Rows(db, t)[NewId(call, t, id)], LastAccessedAt) == None
  {
    BookkeepingColumns(t);
    CopiedTimeOf(from, call, db, t, id, CreatedAt);
    CopiedTimeOf(from, call, db, t, id, LastAccessedAt);
  }

  lemma FiringMoves(call: Call, row: Row, copy: Row)
    requires FiresAt in row.times && TimeIn(copy, FiresAt) == CopiedTime(call, Triggers, row, FiresAt)
    ensures TimeIn(copy, FiresAt) == Some(row.times[FiresAt] + ShiftMs(call))
  {
  }

  lemma RoutineMoves(call: Call, row: Row, copy: Row, c: Time)
    requires Rrule in row.data && RuleClock(c) && c in row.times
    requires TimeIn(copy, c) == CopiedTime(call, MemoryItems, row, c)
    ensures TimeIn(copy, c) == Some(row.times[c] + WeeksMs(call))
  {
    FollowsItsRule(call, row, c);
  }

  /** A trigger on a routine item is not one of those pairs: it moves by all of the days while the item
      moves by whole weeks, so the gap is kept exactly when the days are whole weeks. */
  lemma TriggerGapOfARoutine(from: Database, call: Call, db: Database, trigger: Id, item: Id, c: Time)
    requires Copied(from, call, db) && IsSource(from, call, Triggers, trigger)
        && IsSource(from, call, MemoryItems, item)
    requires Rrule in Rows(from, MemoryItems)[item].data && RuleClock(c) && c in Rows(from, MemoryItems)[item].times
    requires FiresAt in Rows(from, Triggers)[trigger].times
    ensures NewId(call, Triggers, trigger) in Rows(db, Triggers)
        && NewId(call, MemoryItems, item) in Rows(db, MemoryItems)
    ensures var fires := TimeIn(Rows(db, Triggers)[NewId(call, Triggers, trigger)], FiresAt);
      var at := TimeIn(Rows(db, MemoryItems)[NewId(call, MemoryItems, item)], c);
      && fires.Some? && at.Some?
      && (fires.value - at.value
          == Rows(from, Triggers)[trigger].times[FiresAt] - Rows(from, MemoryItems)[item].times[c]
          <==> call.days % 7 == 0)
  {
    CopiedTimeOf(from, call, db, Triggers, trigger, FiresAt);
    CopiedTimeOf(from, call, db, MemoryItems, item, c);
    FiringMoves(call, Rows(from, Triggers)[trigger], Rows(db, Triggers)[NewId(call, Triggers, trigger)]);
    RoutineMoves(call, Rows(from, MemoryItems)[item], Rows(db, MemoryItems)[NewId(call, MemoryItems, item)], c);
    WholeWeeks(call.days);
  }

  // ------------------------------------------------------------------ everything else

  lemma OldRowStays(from: Database, call: Call, db: Database, t: Table, id: Id)
    requires Copied(from, call, db) && id in Base(from, call, t)
    ensures id in Rows(db, t) && Rows(db, t)[id] == Base(from, call, t)[id]
  {
    assert CopiedTo(from, call, db, INSERTS);
    if IsCopied(t) {
      assert Inserted(Base(from, call, t), Rows(db, t), from, call, t);
    }
  }

  /** Every row there was, in the template or any other workspace, is the row it was; only the copy's own
      self entity is updated. */
  lemma NothingElseChanges(from: Database, call: Call, db: Database, t: Table, id: Id)
    requires Copied(from, call, db) && id in Rows(from, t)
    ensures id in Rows(db, t) && Rows(db, t)[id].ws == Rows(from, t)[id].ws
    ensures !(t == Entities && id == call.selfNew) ==> Rows(db, t)[id] == Rows(from, t)[id]
  {
    OldRowStays(from, call, db, t, id);
  }

  /** It takes the template's description of "me" and is otherwise itself. */
  lemma SelfIsDescribed(from: Database, call: Call, db: Database)
    requires Copied(from, call, db)
    ensures call.selfNew in Rows(db, Entities) && call.selfNew in Rows(from, Entities)
        && call.selfOld in Rows(from, Entities)
    ensures Rows(db, Entities)[call.selfNew]
         == DescribedSelf(Rows(from, Entities)[call.selfNew], Rows(from, Entities)[call.selfOld], call.now)
    ensures DatumIn(Rows(db, Entities)[call.selfNew], Description)
        == DatumIn(Rows(from, Entities)[call.selfOld], Description)
  {
    OldRowStays(from, call, db, Entities, call.selfNew);
  }

  /** The copy's workspace records the seed it came from and the days it was moved, and no other workspace
      changes. */
  lemma SeedIsRecorded(from: Database, call: Call, db: Database, w: Id)
    requires Copied(from, call, db) && w in from.workspaces
    ensures w in db.workspaces && db.users == from.users
    ensures w != call.target ==> db.workspaces[w] == from.workspaces[w]
    ensures w == call.target ==>
      && call.template in from.workspaces
      && db.workspaces[w].seedId == from.workspaces[call.template].seedId
      && db.workspaces[w].seedVersion == from.workspaces[call.template].seedVersion
      && db.workspaces[w].movedDays == Some(call.days)
      && db.workspaces[w].owner == from.workspaces[w].owner && db.workspaces[w].kind == from.workspaces[w].kind
  {
  }

  /** Every foreign key of the database holds after the call. */
  lemma CopyKeepsIntegrity(from: Database, call: Call, db: Database)
    requires Copied(from, call, db)
    ensures Integrity(db)
  {
    forall t, id | id in Rows(db, t) ensures RowOk(db, t, Rows(db, t)[id]) {
      forall c ensures RefOk(db, t, Rows(db, t)[id], c) {
        if id in Rows(from, t) {
          OldRefHolds(from, call, db, t, id, c);
        } else {
          NewRefHolds(from, call, db, t, id, c);
        }
      }
    }
  }

  lemma SelfHasNoKeys(t: Table, c: Ref)
    ensures KeyOf(t, c).Some? ==> t != Entities
  {
  }

  lemma OldRefHolds(from: Database, call: Call, db: Database, t: Table, id: Id, c: Ref)
    requires Copied(from, call, db) && id in Rows(from, t) && id in Rows(db, t)
    ensures RefOk(db, t, Rows(db, t)[id], c)
  {
    NothingElseChanges(from, call, db, t, id);
    SelfHasNoKeys(t, c);
    assert RowOk(from, t, Rows(from, t)[id]);
    assert RefOk(from, t, Rows(from, t)[id], c);
    if KeyOf(t, c).Some? && c in Rows(from, t)[id].refs {
      NothingElseChanges(from, call, db, KeyOf(t, c).value.to, Rows(from, t)[id].refs[c]);
    }
  }

  lemma NewRefHolds(from: Database, call: Call, db: Database, t: Table, id: Id, c: Ref)
    requires Copied(from, call, db) && id !in Rows(from, t) && id in Rows(db, t)
    ensures RefOk(db, t, Rows(db, t)[id], c)
  {
    assert CopiedTo(from, call, db, INSERTS);
    if IsCopied(t) {
      CopyIsABijection(from, call, db, t, id, id, id);
      var was :| IsSource(from, call, t, was) && NewId(call, t, was) == id;
      CopiedRowOf(from, call, db, t, was);
      if KeyOf(t, c).Some? {
        ReferencesCommute(from, call, db, t, was, c, KeyOf(t, c).value.to);
      }
    }
  }

  lemma SlugOwner(from: Database, call: Call, db: Database, t: Table, id: Id) returns (was: Id)
    requires Copied(from, call, db) && HasSlug(t) && id in Rows(db, t) && id !in Rows(from, t)
    ensures IsSource(from, call, t, was) && NewId(call, t, was) == id
    ensures Rows(db, t)[id].ws == call.target && DatumIn(Rows(db, t)[id], Slug) == DatumIn(Rows(from, t)[was], Slug)
    ensures SlugIsFree(Rows(from, t), call, t, Rows(from, t)[was])
  {
    CopyIsABijection(from, call, db, t, id, id, id);
    was :| IsSource(from, call, t, was) && NewId(call, t, was) == id;
    CopiedRowOf(from, call, db, t, was);
    SlugOfCopy(from, from, call, t, Rows(from, t)[was]);
  }

  lemma OldSlugDiffers(from: Database, call: Call, db: Database, t: Table, a: Id, b: Id)
    requires Copied(from, call, db) && HasSlug(t) && a in Rows(from, t) && b in Rows(db, t) && b !in Rows(from, t)
    ensures a in Rows(db, t) && !SameSlug(t, Rows(db, t)[a], Rows(db, t)[b])
  {
    NothingElseChanges(from, call, db, t, a);
    var was := SlugOwner(from, call, db, t, b);
    if SameSlug(t, Rows(db, t)[a], Rows(db, t)[b]) {
      assert Rows(from, t)[a].ws == call.target;
      assert SlugTaken(Rows(from, t), t, call.target, DatumIn(Rows(from, t)[was], Slug));
    }
  }

  /** And so do the unique indexes on slugs. */
  lemma CopyKeepsSlugsUnique(from: Database, call: Call, db: Database)
    requires Copied(from, call, db)
    ensures UniqueSlugs(db)
  {
    forall t, a, b | a in Rows(db, t) && b in Rows(db, t) && SameSlug(t, Rows(db, t)[a], Rows(db, t)[b])
      ensures a == b {
      if a in Rows(from, t) && b in Rows(from, t) {
        NothingElseChanges(from, call, db, t, a);
        NothingElseChanges(from, call, db, t, b);
        assert SameSlug(t, Rows(from, t)[a], Rows(from, t)[b]);
      } else if a in Rows(from, t) {
        OldSlugDiffers(from, call, db, t, a, b);
      } else if b in Rows(from, t) {
        OldSlugDiffers(from, call, db, t, b, a);
      } else {
        var x := SlugOwner(from, call, db, t, a);
        var y := SlugOwner(from, call, db, t, b);
        assert SameSlug(t, Rows(from, t)[x], Rows(from, t)[y]);
      }
    }
  }
}
