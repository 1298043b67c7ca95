// What a persona copy holds, column by column, said without the statements that make it.

module CopyByColumns {
  import opened Basics
  import opened Schema
  import opened PersonaCopy

  // ------------------------------------------------------------------ which rows

  /** The twelve tables that a copy fills. */
  predicate Filled(t: Table) {
    || t.VocabTerms? || t.Categories? || t.Turns? || t.Entities? || t.MemoryItems? || t.MemoryEntities?
    || t.MemoryLinks? || t.EntityRelations? || t.Triggers? || t.MemoryKeys? || t.LinkSources? || t.ConversationKeys?
  }

  /** A row of the template, but for its self entity. */
  predicate InTemplate(db: Database, call: Call, t: Table, id: Id) {
    && id in Rows(db, t) && Rows(db, t)[id].ws == call.template
    && !(t == Entities && Kind in Rows(db, t)[id].data && Rows(db, t)[id].data[Kind] == Text("self"))
  }

  lemma TemplateRows(db: Database, call: Call, t: Table, id: Id)
    ensures IsCopied(t) <==> Filled(t)
    ensures IsSource(db, call, t, id) <==> InTemplate(db, call, t, id)
  {
  }

  /** Every row of the template has its copy, under its new id and in the target's workspace; no two share
      one, and nothing else is new, in these tables or any other. */
  lemma EveryRow(from: Database, call: Call, db: Database, t: Table, a: Id, b: Id, k: Id)
    requires Copied(from, call, db)
    ensures Filled(t) && InTemplate(from, call, t, a) ==>
      && NewId(call, t, a) in Rows(db, t) && NewId(call, t, a) !in Rows(from, t)
      && Rows(db, t)[NewId(call, t, a)].ws == call.target
    ensures Filled(t) && InTemplate(from, call, t, a) && InTemplate(from, call, t, b) && a != b ==>
      NewId(call, t, a) != NewId(call, t, b)
    ensures k in Rows(db, t) && k !in Rows(from, t) ==>
      Filled(t) && exists id :: InTemplate(from, call, t, id) && NewId(call, t, id) == k
  {
    TemplateRows(from, call, t, a);
    TemplateRows(from, call, t, b);
    if Filled(t) {
      CopyIsABijection(from, call, db, t, a, b, k);
      if InTemplate(from, call, t, a) {
        CopiedRowOf(from, call, db, t, a);
      }
      if k in Rows(db, t) && k !in Rows(from, t) {
        var id :| IsSource(from, call, t, id) && NewId(call, t, id) == k;
        TemplateRows(from, call, t, id);
      }
    } else {
      assert CopiedTo(from, call, db, INSERTS);
    }
  }

  // ------------------------------------------------------------------ references

  /** The row of the copy that stands for this row of the template; the copy's own self entity stands for
      the template's. */
  function Image(from: Database, call: Call, t: Table, id: Id): Option<Id> {
    if t == Entities && id == call.selfOld then Some(call.selfNew)
    else if InTemplate(from, call, t, id) then Some(NewId(call, t, id))
    else None
  }

  lemma ColumnIsMapped(t: Table, r: Ref)
    requires Filled(t) && !r.UserId?
    ensures HasColumn(t, r) ==>
      Names(r).Some? && (RefOf(t, r) == Mapped(Names(r).value) || RefOf(t, r) == Joined(Names(r).value))
    ensures !HasColumn(t, r) ==> RefOf(t, r) == NoRef
  {
  }

  lemma LookupIsImage(from: Database, call: Call, t: Table, id: Id)
    ensures Lookup(from, call, t, id) == Image(from, call, t, id)
  {
    TemplateRows(from, call, t, id);
  }

  lemma UserColumn(t: Table)
    requires Filled(t)
    ensures RefOf(t, UserId) == if t.Turns? then ThisUser else NoRef
  {
  }

  lemma MappedIs(from: Database, call: Call, t: Table, row: Row, r: Ref, to: Table)
    requires RefOf(t, r) == Mapped(to) || RefOf(t, r) == Joined(to)
    ensures CopiedRef(from, call, t, row, r) == if r in row.refs then Image(from, call, to, row.refs[r]) else None
  {
    if r in row.refs {
      LookupIsImage(from, call, to, row.refs[r]);
    }
  }

  lemma ReferenceIs(from: Database, call: Call, t: Table, row: Row, r: Ref)
    requires Filled(t)
    ensures CopiedRef(from, call, t, row, r) ==
      if r.UserId? then (if t.Turns? then Some(call.user) else None)
      else if HasColumn(t, r) && r in row.refs && Names(r).Some? then Image(from, call, Names(r).value, row.refs[r])
      else None
  {
    if r.UserId? {
      UserColumn(t);
    } else {
      ColumnIsMapped(t, r);
      if HasColumn(t, r) {
        MappedIs(from, call, t, row, r, Names(r).value);
      }
    }
  }

  /** Every reference. A copied turn is the caller's. Any other column of a copied row names the image of
      what the template's row named, or nothing when that is not a row of the template; and a column that
      was null, or that the table has not, stays so. */
  lemma EveryReference(from: Database, call: Call, db: Database, t: Table, id: Id, r: Ref)
    requires Copied(from, call, db) && Filled(t) && InTemplate(from, call, t, id)
    ensures NewId(call, t, id) in Rows(db, t)
    ensures var row, copy := Rows(from, t)[id], Rows(db, t)[NewId(call, t, id)];
      RefIn(copy, r) ==
        if r.UserId? then (if t.Turns? then Some(call.user) else None)
        else if HasColumn(t, r) && r in row.refs && Names(r).Some? then Image(from, call, Names(r).value, row.refs[r])
        else None
  {
    TemplateRows(from, call, t, id);
    CopiedRefOf(from, call, db, t, id, r);
    ReferenceIs(from, call, t, Rows(from, t)[id], r);
  }

  /** The columns that may be null. */
  predicate Nullable(t: Table, r: Ref) {
    || r.ParentTurnId? || r.CategoryId? || r.SubjectEntityId? || r.EvidenceItemId? || r.SpecEntityId?
    || (t.Entities? && (r.CreatedByTurnId? || r.UpdatedByTurnId?))
  }

  lemma RequiredIsNotNull(t: Table, r: Ref)
    requires Filled(t) && HasColumn(t, r) && !Nullable(t, r) && !r.UserId?
    ensures NotNull(t, r)
  {
  }

  /** A column that may not be null is not, in any copied row; nor is a trigger's entity when the
      template's trigger names one. */
  lemma RequiredReferences(from: Database, call: Call, db: Database, t: Table, id: Id, r: Ref)
    requires Copied(from, call, db) && Filled(t) && InTemplate(from, call, t, id)
    requires HasColumn(t, r) && (!Nullable(t, r) || (r.SpecEntityId? && r in Rows(from, t)[id].refs))
    ensures NewId(call, t, id) in Rows(db, t) && r in Rows(db, t)[NewId(call, t, id)].refs
  {
    TemplateRows(from, call, t, id);
    CopiedRefOf(from, call, db, t, id, r);
    assert Fits(from, call, t, Rows(from, t)[id]);
    if r.UserId? {
      UserColumn(t);
    } else if !Nullable(t, r) {
      RequiredIsNotNull(t, r);
    }
  }

  // ------------------------------------------------------------------ clocks

  predicate HasClock(t: Table, c: Time) {
    match c
    case CreatedAt => !t.Turns?
    case UpdatedAt => t.Entities? || t.MemoryItems? || t.Triggers? || t.MemoryKeys? || t.LinkSources?
    case StartedAt => t.Turns?
    case FinishedAt => t.Turns?
    case MentionedAt => t.MemoryItems?
    case OccurredStart => t.MemoryItems?
    case OccurredEnd => t.MemoryItems?
    case DueAt => t.MemoryItems?
    case ValidFrom => t.MemoryItems? || t.EntityRelations?
    case ValidTo => t.MemoryItems? || t.EntityRelations?
    case CoreConfirmedAt => t.MemoryItems?
    case QuickUntil => t.MemoryItems?
    case LastAccessedAt => t.MemoryItems?
    case SummaryUpdatedAt => t.Entities?
    case FiresAt => t.Triggers?
    case ExpiresAt => t.Triggers?
    case SaidAt => t.ConversationKeys?
    case PublishedAt => t.LinkSources?
    case FetchedAt => t.LinkSources?
  }

  lemma ClockColumn(t: Table, c: Time)
    requires Filled(t)
    ensures TimeOf(t, c) ==
      if !HasClock(t, c) || c.LastAccessedAt? then NoTime
      else if c.CreatedAt? || c.UpdatedAt? then RightNow
      else if t.MemoryItems? && !c.CoreConfirmedAt? then ByRule
      else Shift
  {
  }

  /** The clock of a row, carried over. A copied row is made and updated now, and was never accessed. Every
      other clock it has moves by the call's days, but an item's own by the whole weeks in them when the
      item is a routine; a null clock stays null. */
  function Carried(call: Call, t: Table, row: Row, c: Time): Option<int> {
    if !HasClock(t, c) || c.LastAccessedAt? then None
    else if c.CreatedAt? || c.UpdatedAt? then Some(call.now)
    else if c !in row.times then None
    else
      var routine := t.MemoryItems? && !c.CoreConfirmedAt? && Rrule in row.data;
      Some(row.times[c] + 86_400_000 * (if routine then call.days / 7 * 7 else call.days))
  }

  lemma ClockIs(call: Call, t: Table, row: Row, c: Time)
    requires Filled(t)
    ensures CopiedTime(call, t, row, c) == Carried(call, t, row, c)
  {
    ClockColumn(t, c);
  }

  /** Every clock of every copied row. */
  lemma EveryClock(from: Database, call: Call, db: Database, t: Table, id: Id, c: Time)
    requires Copied(from, call, db) && Filled(t) && InTemplate(from, call, t, id)
    ensures NewId(call, t, id) in Rows(db, t)
    ensures TimeIn(Rows(db, t)[NewId(call, t, id)], c) == Carried(call, t, Rows(from, t)[id], c)
  {
    TemplateRows(from, call, t, id);
    CopiedTimeOf(from, call, db, t, id, c);
    ClockIs(call, t, Rows(from, t)[id], c);
  }

  // ------------------------------------------------------------------ data

  predicate HasDatum(t: Table, d: Datum) {
    match d
    case EventCount => t.Turns?
    case AccessCount => t.MemoryItems?
    case Kind => t.Turns? || t.Entities? || t.MemoryItems?
    case Rrule => t.MemoryItems?
    case Description => t.Entities?
    case Slug => t.Categories? || t.VocabTerms?
    case Content => true
    case Cost => false
    case Provider => false
  }

  lemma DatumIs(t: Table, row: Row, d: Datum)
    requires Filled(t)
    ensures CopiedDatum(t, row, d) ==
      if !HasDatum(t, d) then None else if d.EventCount? || d.AccessCount? then Some(Number(0)) else DatumIn(row, d)
  {
  }

  /** Every datum: counters start at nothing, all else is the template's. */
  lemma EveryDatum(from: Database, call: Call, db: Database, t: Table, id: Id, d: Datum)
    requires Copied(from, call, db) && Filled(t) && InTemplate(from, call, t, id)
    ensures NewId(call, t, id) in Rows(db, t)
    ensures DatumIn(Rows(db, t)[NewId(call, t, id)], d) ==
      if !HasDatum(t, d) then None
      else if d.EventCount? || d.AccessCount? then Some(Number(0))
      else if d in Rows(from, t)[id].data then Some(Rows(from, t)[id].data[d]) else None
  {
    TemplateRows(from, call, t, id);
    CopiedDatumOf(from, call, db, t, id, d);
    DatumIs(t, Rows(from, t)[id], d);
  }

  // ------------------------------------------------------------------ who may be copied, and onto whom

  /** The entity row that stands for the user in a workspace. */
  predicate IsMe(db: Database, k: Id, ws: Id) {
    && k in Rows(db, Entities) && Rows(db, Entities)[k].ws == ws
    && Kind in Rows(db, Entities)[k].data && Rows(db, Entities)[k].data[Kind] == Text("self")
  }

  /** A call that succeeds copies a template, forward in time, into a persona copy of this user's that has
      no items and no turns, each with its one self entity. */
  lemma OnlyTemplatesAreCopied(from: Database, call: Call, db: Database, t: Table, id: Id)
    requires Copied(from, call, db)
    ensures call.days >= 0
    ensures call.template in from.workspaces && from.workspaces[call.template].kind == "template"
    ensures call.target in from.workspaces && from.workspaces[call.target].kind == "persona_copy"
    ensures from.workspaces[call.target].owner == call.user
    ensures (t.MemoryItems? || t.Turns?) && id in Rows(from, t) ==> Rows(from, t)[id].ws != call.target
    ensures IsMe(from, call.selfOld, call.template) && IsMe(from, call.selfNew, call.target)
  {
  }

  /** Nothing else is asked: with those guards met, new and distinct ids, free slugs, and required references
      that name rows of the template, the call succeeds. */
  lemma WhatItTakes(from: Database, call: Call)
    requires Intact(from) && call.days >= 0
    requires call.template in from.workspaces && from.workspaces[call.template].kind == "template"
    requires call.target in from.workspaces && from.workspaces[call.target].kind == "persona_copy"
    requires from.workspaces[call.target].owner == call.user
    requires forall t: Table, id :: (t == MemoryItems || t == Turns) && id in Rows(from, t) ==>
      Rows(from, t)[id].ws != call.target
    requires IsMe(from, call.selfOld, call.template) && IsMe(from, call.selfNew, call.target)
    requires forall t, id :: Filled(t) && InTemplate(from, call, t, id) ==> Insertable(from, call, t, id)
    requires forall t, a, b :: Filled(t) && InTemplate(from, call, t, a) && InTemplate(from, call, t, b) && a != b ==>
      NewId(call, t, a) != NewId(call, t, b)
    ensures Succeeds(from, call)
  {
    assert EmptyOf(from, MemoryItems, call.target) && EmptyOf(from, Turns, call.target);
    forall t, id | IsCopied(t) && IsSource(from, call, t, id)
      ensures NewId(call, t, id) !in Rows(from, t) && Fits(from, call, t, Rows(from, t)[id])
      ensures SlugIsFree(Rows(from, t), call, t, Rows(from, t)[id]) {
      TemplateRows(from, call, t, id);
      InsertableFits(from, call, t, id);
    }
    forall t, a, b | IsCopied(t) && IsSource(from, call, t, a) && IsSource(from, call, t, b) && a != b
      ensures NewId(call, t, a) != NewId(call, t, b) {
      TemplateRows(from, call, t, a);
      TemplateRows(from, call, t, b);
    }
  }

  /** This row of the template can be inserted: its id is new, the target has not its slug, and what its
      required columns name is in the template. */
  predicate Insertable(from: Database, call: Call, t: Table, id: Id)
    requires id in Rows(from, t)
  {
    var row := Rows(from, t)[id];
    && NewId(call, t, id) !in Rows(from, t)
    && (HasDatum(t, Slug) && Slug in row.data ==>
          forall k | k in Rows(from, t) :: Rows(from, t)[k].ws == call.target ==>
            Slug !in Rows(from, t)[k].data || Rows(from, t)[k].data[Slug] != row.data[Slug])
    && (forall r :: r in row.refs && HasColumn(t, r) && Names(r).Some? && (!Nullable(t, r) || r.SpecEntityId?) ==>
          Image(from, call, Names(r).value, row.refs[r]).Some?)
  }

  lemma NotNullIsRequired(t: Table, r: Ref)
    requires Filled(t) && NotNull(t, r)
    ensures HasColumn(t, r) && !Nullable(t, r) && !r.UserId? && Names(r).Some?
  {
  }

  lemma InsertableFits(from: Database, call: Call, t: Table, id: Id)
    requires Intact(from) && Filled(t) && InTemplate(from, call, t, id) && Insertable(from, call, t, id)
    ensures Fits(from, call, t, Rows(from, t)[id]) && SlugIsFree(Rows(from, t), call, t, Rows(from, t)[id])
  {
    var row := Rows(from, t)[id];
    forall r | NotNull(t, r) ensures CopiedRef(from, call, t, row, r).Some? {
      NotNullIsRequired(t, r);
      assert r in row.refs;
      ReferenceIs(from, call, t, row, r);
    }
    ReferenceIs(from, call, t, row, SpecEntityId);
  }

  /** The copy's self entity: the template's description of "me", updated now, and otherwise as it was. */
  lemma SelfByColumns(from: Database, call: Call, db: Database)
    requires Copied(from, call, db)
    ensures call.selfNew in Rows(db, Entities)
    ensures call.selfNew in Rows(from, Entities) && call.selfOld in Rows(from, Entities)
    ensures var was, me := Rows(from, Entities)[call.selfNew], Rows(db, Entities)[call.selfNew];
      var theirs := Rows(from, Entities)[call.selfOld];
      && me.ws == was.ws && me.refs == was.refs
      && (forall c :: TimeIn(me, c) == if c.UpdatedAt? then Some(call.now) else TimeIn(was, c))
      && (forall d :: DatumIn(me, d) == if d.Description? then DatumIn(theirs, d) else DatumIn(was, d))
  {
    SelfIsDescribed(from, call, db);
  }
}
